/** The content script's choice of what to put in a form field (`findMatchingValue`) and
    which option of a drop-down to select (`selectOption`). The field description is the
    lower-cased text gathered around the field; the page itself is not modelled. */
module Autofill {
  import opened Text
  import opened Storage

  /** A keyword group and the value a field gets when its description contains one of the
      keywords. */
  datatype Rule = Rule(keywords: seq<string>, value: string)

  /** `keywords.some(k => fieldInfo.includes(k))`. */
  predicate Mentions(fieldInfo: string, keywords: seq<string>)
  {
    exists k :: 0 <= k < |keywords| && Contains(fieldInfo, keywords[k])
  }

  /** `address.split(',')[0] || ''`: the address up to its first comma. */
  function City(address: string): string
  {
    SplitOn(address, ',')[0]
  }

  /** `gpa || ''`. */
  function GpaText(gpa: Option<string>): string
  {
    match gpa
    case Some(g) => g
    case None => ""
  }

  /** The personal keyword groups, in the order they are tried. */
  function PersonalRules(p: PersonalInfo): seq<Rule>
  {
    [Rule(["first name", "given name", "fname"], p.firstName),
     Rule(["last name", "family name", "surname", "lname"], p.lastName),
     Rule(["email", "e-mail"], p.email),
     Rule(["phone", "mobile", "cell", "tel"], p.phone),
     Rule(["linkedin"], p.linkedin),
     Rule(["website", "portfolio", "portfolio site", "site"], p.website),
     Rule(["github"], p.github),
     Rule(["address", "street", "location"], p.address),
     Rule(["city"], City(p.address))]
  }

  /** The keyword groups of the most recent position. */
  function WorkRules(w: WorkExperience): seq<Rule>
  {
    [Rule(["employer", "company", "organization"], w.company),
     Rule(["job title", "position", "role"], w.title),
     Rule(["responsibilities", "work description"], w.description)]
  }

  /** The keyword groups of the most recent education entry. */
  function EducationRules(e: Education): seq<Rule>
  {
    [Rule(["school", "university", "college", "institution"], e.school),
     Rule(["degree", "qualification"], e.degree),
     Rule(["field of study", "major", "program"], e.field),
     Rule(["gpa", "grade", "average"], GpaText(e.gpa))]
  }

  /** The skills group: the skills joined with `", "`. */
  function SkillsRule(skills: seq<string>): Rule
  {
    Rule(["skill", "competencies"], Join(skills, ", "))
  }

  /** The value of the first group of `rules` with a keyword in the description. */
  function FirstMatch(rules: seq<Rule>, fieldInfo: string): Option<string>
  {
    if rules == [] then None
    else if Mentions(fieldInfo, rules[0].keywords) then Some(rules[0].value)
    else FirstMatch(rules[1..], fieldInfo)
  }

  /** `findMatchingValue`: the personal groups; then, when there is a position, the groups of
      the first one; then, when there is an education entry, the groups of the first one;
      then the skills; `None` (JavaScript `null`) when nothing matches. */
  function FindMatchingValue(fieldInfo: string, resume: ResumeData): Option<string>
  {
    var personal := FirstMatch(PersonalRules(resume.personalInfo), fieldInfo);
    if personal.Some? then personal
    else
      var work := if |resume.workExperience| > 0 then FirstMatch(WorkRules(resume.workExperience[0]), fieldInfo) else None;
      if work.Some? then work
      else
        var education := if |resume.education| > 0 then FirstMatch(EducationRules(resume.education[0]), fieldInfo) else None;
        if education.Some? then education
        else if Contains(fieldInfo, "skill") || Contains(fieldInfo, "competencies") then Some(Join(resume.skills, ", "))
        else None
  }

  /** Every group `findMatchingValue` consults, in priority order. */
  function ConsultedRules(resume: ResumeData): seq<Rule>
  {
    PersonalRules(resume.personalInfo)
    + (if |resume.workExperience| > 0 then WorkRules(resume.workExperience[0]) else [])
    + (if |resume.education| > 0 then EducationRules(resume.education[0]) else [])
    + [SkillsRule(resume.skills)]
  }

  // ---------------------------------------------------------------- first match

  /** The first group with a keyword in the description gives the value, whatever later
      groups would give, and even when that value is empty. */
  lemma {:induction false} FirstMatchAt(rules: seq<Rule>, fieldInfo: string, i: nat)
    requires i < |rules| && Mentions(fieldInfo, rules[i].keywords)
    requires forall j :: 0 <= j < i ==> !Mentions(fieldInfo, rules[j].keywords)
    ensures FirstMatch(rules, fieldInfo) == Some(rules[i].value)
  {
    if i > 0 {
      assert !Mentions(fieldInfo, rules[0].keywords);
      FirstMatchAt(rules[1..], fieldInfo, i - 1);
    }
  }

  /** No value exactly when no group has a keyword in the description. */
  lemma {:induction false} FirstMatchNone(rules: seq<Rule>, fieldInfo: string)
    ensures FirstMatch(rules, fieldInfo).None? <==> forall j :: 0 <= j < |rules| ==> !Mentions(fieldInfo, rules[j].keywords)
  {
    if rules != [] {
      FirstMatchNone(rules[1..], fieldInfo);
      assert forall j :: 1 <= j < |rules| ==> rules[j] == rules[1..][j - 1];
    }
  }

  /** Trying `a` then `b` is trying `a + b`. */
  lemma {:induction false} FirstMatchConcat(a: seq<Rule>, b: seq<Rule>, fieldInfo: string)
    ensures FirstMatch(a + b, fieldInfo) ==
      if FirstMatch(a, fieldInfo).Some? then FirstMatch(a, fieldInfo) else FirstMatch(b, fieldInfo)
  {
    if a != [] {
      assert (a + b)[0] == a[0];
      assert (a + b)[1..] == a[1..] + b;
      FirstMatchConcat(a[1..], b, fieldInfo);
    } else {
      assert a + b == b;
    }
  }

  lemma SkillsRuleMatch(skills: seq<string>, fieldInfo: string)
    ensures FirstMatch([SkillsRule(skills)], fieldInfo) ==
      if Contains(fieldInfo, "skill") || Contains(fieldInfo, "competencies") then Some(Join(skills, ", ")) else None
  {
    var ks := SkillsRule(skills).keywords;
    if Contains(fieldInfo, "skill") {
      assert Contains(fieldInfo, ks[0]);
    } else if Contains(fieldInfo, "competencies") {
      assert Contains(fieldInfo, ks[1]);
    }
    assert [SkillsRule(skills)][1..] == [];
  }

  // ---------------------------------------------------------------- findMatchingValue

  /** `findMatchingValue` is the first match over one priority list: the personal groups,
      the groups of the first position and of the first education entry when there are any,
      and the skills group. */
  lemma MatchingIsPriorityList(fieldInfo: string, resume: ResumeData)
    ensures FindMatchingValue(fieldInfo, resume) == FirstMatch(ConsultedRules(resume), fieldInfo)
  {
    var p := PersonalRules(resume.personalInfo);
    var w := if |resume.workExperience| > 0 then WorkRules(resume.workExperience[0]) else [];
    var e := if |resume.education| > 0 then EducationRules(resume.education[0]) else [];
    var s := [SkillsRule(resume.skills)];
    assert ConsultedRules(resume) == p + (w + (e + s));
    FirstMatchConcat(p, w + (e + s), fieldInfo);
    FirstMatchConcat(w, e + s, fieldInfo);
    FirstMatchConcat(e, s, fieldInfo);
    SkillsRuleMatch(resume.skills, fieldInfo);
  }

  /** A personal group with a keyword in the description, after none that has one, decides
      the field, even with an empty value and whatever the positions, education and skills. */
  lemma PersonalDecides(fieldInfo: string, resume: ResumeData, i: nat)
    requires i < |PersonalRules(resume.personalInfo)|
    requires Mentions(fieldInfo, PersonalRules(resume.personalInfo)[i].keywords)
    requires forall j :: 0 <= j < i ==> !Mentions(fieldInfo, PersonalRules(resume.personalInfo)[j].keywords)
    ensures FindMatchingValue(fieldInfo, resume) == Some(PersonalRules(resume.personalInfo)[i].value)
  {
    FirstMatchAt(PersonalRules(resume.personalInfo), fieldInfo, i);
  }

  /** Only the personal details, the first position, the first education entry and the
      skills are read: two résumés that agree on those fill every field alike. */
  lemma OnlyMostRecent(fieldInfo: string, r1: ResumeData, r2: ResumeData)
    requires r1.personalInfo == r2.personalInfo && r1.skills == r2.skills
    requires (|r1.workExperience| > 0 <==> |r2.workExperience| > 0)
    requires |r1.workExperience| > 0 ==> r1.workExperience[0] == r2.workExperience[0]
    requires (|r1.education| > 0 <==> |r2.education| > 0)
    requires |r1.education| > 0 ==> r1.education[0] == r2.education[0]
    ensures FindMatchingValue(fieldInfo, r1) == FindMatchingValue(fieldInfo, r2)
  {
    MatchingIsPriorityList(fieldInfo, r1);
    MatchingIsPriorityList(fieldInfo, r2);
    assert ConsultedRules(r1) == ConsultedRules(r2);
  }

  /** The field is left alone exactly when no consulted group has a keyword in the
      description. */
  lemma NoneIff(fieldInfo: string, resume: ResumeData)
    ensures FindMatchingValue(fieldInfo, resume).None? <==>
      forall j :: 0 <= j < |ConsultedRules(resume)| ==> !Mentions(fieldInfo, ConsultedRules(resume)[j].keywords)
  {
    MatchingIsPriorityList(fieldInfo, resume);
    FirstMatchNone(ConsultedRules(resume), fieldInfo);
  }

  /** With no personal, position or education keyword, a description naming skills gets the
      skills joined with `", "`. */
  lemma SkillsLast(fieldInfo: string, resume: ResumeData)
    requires FirstMatch(PersonalRules(resume.personalInfo), fieldInfo).None?
    requires |resume.workExperience| > 0 ==> FirstMatch(WorkRules(resume.workExperience[0]), fieldInfo).None?
    requires |resume.education| > 0 ==> FirstMatch(EducationRules(resume.education[0]), fieldInfo).None?
    ensures FindMatchingValue(fieldInfo, resume).Some? <==> Contains(fieldInfo, "skill") || Contains(fieldInfo, "competencies")
    ensures FindMatchingValue(fieldInfo, resume).Some? ==> FindMatchingValue(fieldInfo, resume).value == Join(resume.skills, ", ")
  {
  }

  /** The city is the address up to its first comma: a prefix without commas, followed by a
      comma unless it is the whole address. */
  lemma {:induction false} CityIsFirstPart(address: string)
    ensures |City(address)| <= |address| && address[..|City(address)|] == City(address)
    ensures ',' !in City(address)
    ensures |City(address)| < |address| ==> address[|City(address)|] == ','
  {
    if address != [] {
      CityIsFirstPart(address[1..]);
    }
  }

  /** A missing GPA fills the GPA field with `''`. */
  lemma MissingGpa(e: Education)
    ensures EducationRules(e)[3].value == (if e.gpa.Some? then e.gpa.value else "")
  {
  }

  // ---------------------------------------------------------------- selectOption

  /** An `<option>`: its displayed text and its value. */
  datatype SelectItem = SelectItem(text: string, value: string)

  /** Text or value equal to the lower-cased wanted value, ignoring case. */
  predicate ExactOption(o: SelectItem, val: string)
  {
    ToLower(o.text) == val || ToLower(o.value) == val
  }

  /** The lower-cased text contains the wanted value, or the wanted value contains it. */
  predicate PartialOption(o: SelectItem, val: string)
  {
    Contains(ToLower(o.text), val) || Contains(val, ToLower(o.text))
  }

  /** The index `options.find` stops at: the first option satisfying `p`. */
  function FirstWhere(options: seq<SelectItem>, p: SelectItem -> bool): (r: Option<nat>)
    ensures r.Some? ==> r.value < |options| && p(options[r.value])
    ensures r.Some? ==> forall j :: 0 <= j < r.value ==> !p(options[j])
    ensures r.None? ==> forall j :: 0 <= j < |options| ==> !p(options[j])
  {
    if options == [] then None
    else if p(options[0]) then Some(0)
    else
      match FirstWhere(options[1..], p)
      case Some(i) => Some(i + 1)
      case None => None
  }

  /** The option `selectOption` picks: the first exact match, else the first partial
      match, else none. */
  function ChosenOption(options: seq<SelectItem>, value: string): (r: Option<nat>)
    ensures r.Some? ==> r.value < |options|
  {
    var val := ToLower(value);
    var exact := FirstWhere(options, o => ExactOption(o, val));
    if exact.Some? then exact else FirstWhere(options, o => PartialOption(o, val))
  }

  /** The choice prefers any exact match to every partial one, takes the first of its
      kind, and is empty exactly when no option matches either way. */
  lemma ChosenOptionDescribed(options: seq<SelectItem>, value: string)
    ensures var c, val := ChosenOption(options, value), ToLower(value);
      (c.None? <==> forall j :: 0 <= j < |options| ==> !ExactOption(options[j], val) && !PartialOption(options[j], val))
      && ((exists j :: 0 <= j < |options| && ExactOption(options[j], val)) ==>
            c.Some? && c.value < |options| && ExactOption(options[c.value], val)
            && forall j :: 0 <= j < c.value ==> !ExactOption(options[j], val))
      && ((forall j :: 0 <= j < |options| ==> !ExactOption(options[j], val)) && c.Some? ==>
            c.value < |options| && PartialOption(options[c.value], val)
            && forall j :: 0 <= j < c.value ==> !PartialOption(options[j], val))
  {
  }

  /** The two `find` loops of `selectOption`. */
  method ChooseOption(options: seq<SelectItem>, value: string) returns (chosen: Option<nat>)
    ensures chosen == ChosenOption(options, value)
  {
    var val := ToLower(value);
    var i := 0;
    while i < |options| && !ExactOption(options[i], val)
      invariant i <= |options|
      invariant forall j :: 0 <= j < i ==> !ExactOption(options[j], val)
    {
      i := i + 1;
    }
    if i < |options| {
      FirstIs(options, o => ExactOption(o, val), i);
      return Some(i);
    }
    FirstIsNone(options, o => ExactOption(o, val));
    i := 0;
    while i < |options| && !PartialOption(options[i], val)
      invariant i <= |options|
      invariant forall j :: 0 <= j < i ==> !PartialOption(options[j], val)
    {
      i := i + 1;
    }
    if i < |options| {
      FirstIs(options, o => PartialOption(o, val), i);
      chosen := Some(i);
    } else {
      FirstIsNone(options, o => PartialOption(o, val));
      chosen := None;
    }
  }

  /** The first option satisfying `p` is the one `FirstWhere` finds. */
  lemma FirstIs(options: seq<SelectItem>, p: SelectItem -> bool, i: nat)
    requires i < |options| && p(options[i]) && forall j :: 0 <= j < i ==> !p(options[j])
    ensures FirstWhere(options, p) == Some(i)
  {
  }

  lemma FirstIsNone(options: seq<SelectItem>, p: SelectItem -> bool)
    requires forall j :: 0 <= j < |options| ==> !p(options[j])
    ensures FirstWhere(options, p) == None
  {
  }

  /** A `<select>` element: its options and its current value. */
  class SelectElement {
    var options: seq<SelectItem>
    var value: string

    constructor (options: seq<SelectItem>, value: string)
      ensures this.options == options && this.value == value
    {
      this.options := options;
      this.value := value;
    }

    /** `selectOption`: the chosen option's value becomes the element's value; with no
        matching option the element is left as it was. */
    method SelectOption(wanted: string)
      modifies this
      ensures options == old(options)
      ensures ChosenOption(options, wanted).Some? ==> value == options[ChosenOption(options, wanted).value].value
      ensures ChosenOption(options, wanted).None? ==> value == old(value)
    {
      var chosen := ChooseOption(options, wanted);
      if chosen.Some? {
        value := options[chosen.value].value;
      }
    }
  }
}
