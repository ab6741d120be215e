/** Personal details (`extractPersonalInfo`, `extractLinkedIn`, `extractGitHub`,
    `extractWebsite`): the e-mail address, telephone number and profile links are searched
    for in the text, the address in the header, and the name is read from the first header
    line. */
module Personal {
  import opened Text
  import opened Regex
  import opened Storage
  import opened Normalize
  import opened Fields
  import opened Lists
  import opened Authors

  // ---------------------------------------------------------------- e-mail

  /** `/[a-zA-Z0-9._%+-]+@[a-zA-Z0-9.-]+\.[a-zA-Z]{2,}/`. */
  const EmailPattern: Pattern :=
    Sensitive(Seqs([Plus(Set([('a', 'z'), ('A', 'Z'), ('0', '9')], "._%+-", false)), Chr('@'),
      Plus(Set([('a', 'z'), ('A', 'Z'), ('0', '9')], ".-", false)), Chr('.'), AtLeast(LetterCh, 2)]))

  /** The first address in the text, cleaned as an e-mail, or `''`. */
  function Email(fullText: string): string
  {
    match FirstText(EmailPattern, fullText)
    case Some(t) => CleanFieldValue(t, EmailField)
    case None => ""
  }

  // ---------------------------------------------------------------- telephone

  /** `[-.\s]?`. */
  const PhoneSep: Re := Opt(Set(SpaceRanges, "-.", false))

  /** `\(?\d{3}\)?[-.\s]?\d{3}[-.\s]?\d{4}`. */
  const TenDigits: Re :=
    Seqs([Opt(Chr('(')), Rep(Digit, 3, 3), Opt(Chr(')')), PhoneSep, Rep(Digit, 3, 3), PhoneSep, Rep(Digit, 4, 4)])

  /** The telephone patterns, in the order they are tried: ten digits, then `+1` and ten
      digits. */
  const PhonePatterns: seq<Pattern> := [
    Sensitive(TenDigits),
    Sensitive(Seqs([Lit("+1"), PhoneSep, TenDigits]))]

  /** `headerText.match(pattern) || fullText.match(pattern)`. */
  function PhoneMatch(p: Pattern, headerText: string, fullText: string): Option<string>
  {
    match FirstText(p, headerText)
    case Some(t) => Some(t)
    case None => FirstText(p, fullText)
  }

  /** One try of the telephone loop: the pattern found in the header or else in the whole
      text. */
  function PhoneTry(headerText: string, fullText: string): Pattern -> Option<string>
  {
    p => PhoneMatch(p, headerText, fullText)
  }

  /** The telephone loop: the text of the first pattern found. */
  function FirstPhone(headerText: string, fullText: string): Option<string>
  {
    FirstSome(PhonePatterns, PhoneTry(headerText, fullText), 0)
  }

  /** The number found, cleaned as a telephone number, or `''`. */
  function Phone(headerText: string, fullText: string): string
  {
    match FirstPhone(headerText, fullText)
    case Some(t) => CleanFieldValue(t, PhoneField)
    case None => ""
  }

  // ---------------------------------------------------------------- links

  /** `[a-zA-Z0-9_-]+`. */
  const Handle: Re := Plus(Set([('a', 'z'), ('A', 'Z'), ('0', '9')], "_-", false))

  /** `/https?:\/\/(?:www\.)?<site>\/<path>([a-zA-Z0-9_-]+)\/?/i` and the same without the
      scheme. */
  function ProfilePatterns(site: string): seq<Pattern>
  {
    [Insensitive(Seqs([Lit("http"), Opt(Chr('s')), Lit("://"), Opt(Lit("www.")), Lit(site), Group(1, Handle), Opt(Chr('/'))])),
     Insensitive(Seqs([Lit(site), Group(1, Handle), Opt(Chr('/'))]))]
  }

  /** `linkedin.com/in/`. */
  const LINKEDIN_PATH: string := "linkedin.com/in/"

  /** `github.com/`. */
  const GITHUB_PATH: string := "github.com/"

  /** One pattern of the profile loop: the captured handle, `match[1]`, when it matches. */
  function HandleTry(text: string): Pattern -> Option<string>
  {
    p => match Search(p, text)
      case Some(m) => Some(GroupOr(text, m, 1))
      case None => None
  }

  /** The profile loop: the handle captured by the first pattern that matches. */
  function HandleOf(site: string, text: string): Option<string>
  {
    FirstSome(ProfilePatterns(site), HandleTry(text), 0)
  }

  /** The loop's result: `https://<site><handle>`, cleaned as a URL, and `''` when no
      pattern matches. */
  function Profile(site: string, text: string): string
  {
    match HandleOf(site, text)
    case Some(h) => CleanFieldValue("https://" + site + h, UrlField)
    case None => ""
  }

  /** `extractLinkedIn`. */
  function LinkedIn(text: string): string
  {
    Profile(LINKEDIN_PATH, text)
  }

  /** `extractGitHub`. */
  function GitHub(text: string): string
  {
    Profile(GITHUB_PATH, text)
  }

  /** `/https?:\/\/(?!(?:www\.)?(?:linkedin|github)\.com)[^\s,)\]]+/gi`: a link to any other
      site. */
  const WebsitePattern: Pattern :=
    Insensitive(Seqs([Lit("http"), Opt(Chr('s')), Lit("://"),
      Lookahead(Seqs([Opt(Lit("www.")), Alt(Lit("linkedin"), Lit("github")), Lit(".com")]), false),
      Plus(Set(SpaceRanges, ",)]", true))]))

  /** `extractWebsite`: the first match of the `g`-flag pattern, cleaned as a URL, or `''`. */
  function Website(text: string): string
  {
    match FirstText(WebsitePattern, text)
    case Some(t) => CleanFieldValue(t, UrlField)
    case None => ""
  }

  // ---------------------------------------------------------------- address

  /** `/([A-Z][a-z]+(?:\s+[A-Z][a-z]+)*),?\s*([A-Z]{2})(?:\s+\d{5})?/`: a city, a state code
      and perhaps a ZIP code. */
  const AddressPattern: Pattern :=
    Sensitive(Seqs([
      Group(1, Seqs([UpperCh, Plus(LowerCh), Star(Seqs([Plus(Space), UpperCh, Plus(LowerCh)]))])),
      Opt(Chr(',')), Star(Space), Group(2, Rep(UpperCh, 2, 2)), Opt(Seqs([Plus(Space), Rep(Digit, 5, 5)]))]))

  function Address(headerText: string): string
  {
    match FirstText(AddressPattern, headerText)
    case Some(t) => t
    case None => ""
  }

  // ---------------------------------------------------------------- name

  /** `replace(/[|•·,]/g, ' ')`. */
  function BlankSeparators(s: string): (r: string)
    ensures |r| == |s|
    ensures forall k :: 0 <= k < |s| ==> r[k] == (if s[k] in "|•·," then ' ' else s[k])
  {
    seq(|s|, k requires 0 <= k < |s| => if s[k] in "|•·," then ' ' else s[k])
  }

  /** The first header line without the e-mail address and the telephone number (their
      first occurrences), separators turned into spaces, trimmed. */
  function NameLine(first: string, email: string, phone: string): string
  {
    Trim(BlankSeparators(ReplaceFirst(ReplaceFirst(first, email, ""), phone, "")))
  }

  /** `p.length > 1 && /^[A-Za-z]/.test(p)`. */
  predicate IsNamePart(p: string)
  {
    |p| > 1 && IsLetter(p[0])
  }

  /** The words of the name line that can be part of a name. */
  function NameParts(nameLine: string): (r: seq<string>)
    ensures forall k :: 0 <= k < |r| ==> |r[k]| > 1 && IsLetter(r[k][0])
  {
    Select(Split(NameGaps, nameLine), IsNamePart)
  }

  /** The first name (the first part) and last name (the other parts joined with spaces),
      each cleaned as a name; both `''` when there is no first header line or it is empty. */
  function Names(headerLines: seq<string>, email: string, phone: string): (string, string)
  {
    if headerLines == [] || headerLines[0] == "" then ("", "")
    else
      var parts := NameParts(NameLine(headerLines[0], email, phone));
      (CleanFieldValue(if parts == [] then "" else parts[0], NameField),
       CleanFieldValue(if parts == [] then "" else Join(parts[1..], " "), NameField))
  }

  /** `extractPersonalInfo`. */
  function ExtractPersonalInfo(headerLines: seq<string>, fullText: string): PersonalInfo
  {
    var headerText := Join(headerLines, " ");
    var email := Email(fullText);
    var phone := Phone(headerText, fullText);
    var (firstName, lastName) := Names(headerLines, email, phone);
    PersonalInfo(firstName, lastName, email, phone, LinkedIn(fullText), Website(fullText), GitHub(fullText),
      Address(headerText))
  }

  // ---------------------------------------------------------------- properties

  /** An empty value cleans to `''` as a name. */
  lemma CleanEmptyName()
    ensures CleanFieldValue("", NameField) == ""
  {
    assert Normalize.NonSpace("") == "";
    assert |Cleaned("")| == 0 by {
      NoSpaceLeft(Cleaned(""));
    }
  }

  /** A trimmed text whose characters are all removed by `NonSpace` is empty. */
  lemma NoSpaceLeft(s: string)
    requires Normalize.NonSpace(s) == ""
    requires s != [] ==> !IsSpace(s[0])
    ensures s == ""
  {
    if s != [] {
      assert false;
    }
  }

  /** The names hold only letters, white space, hyphens and apostrophes, and both are `''`
      when the header has no first line or it is empty. */
  lemma NamesDescribed(headerLines: seq<string>, fullText: string)
    ensures var info := ExtractPersonalInfo(headerLines, fullText);
      (forall k :: 0 <= k < |info.firstName| ==> NameChar(info.firstName[k]))
      && (forall k :: 0 <= k < |info.lastName| ==> NameChar(info.lastName[k]))
      && (headerLines == [] || headerLines[0] == "" ==> info.firstName == "" && info.lastName == "")
  {
    CleanEmptyName();
  }

  /** Without an address match the e-mail is `''`; otherwise it is the first match with its
      white space removed and lower-cased. */
  lemma EmailDescribed(fullText: string)
    ensures FirstText(EmailPattern, fullText).None? ==> Email(fullText) == ""
    ensures FirstText(EmailPattern, fullText).Some? ==>
      var t, e := FirstText(EmailPattern, fullText).value, Email(fullText);
      ToLower(e) == ToLower(Normalize.NonSpace(t)) && |e| == |Normalize.NonSpace(t)|
      && forall k :: 0 <= k < |e| ==> !IsSpace(e[k]) && !IsUpper(e[k])
  {
  }

  /** The telephone number comes from the earliest pattern found in the header or the
      whole text, cleaned as a telephone number; it is `''` when no pattern is found in
      either. */
  lemma PhoneIsEarliest(headerText: string, fullText: string)
    ensures (forall i :: 0 <= i < |PhonePatterns| ==> PhoneMatch(PhonePatterns[i], headerText, fullText).None?) ==>
      Phone(headerText, fullText) == ""
    ensures forall j ::
      (0 <= j < |PhonePatterns| && PhoneMatch(PhonePatterns[j], headerText, fullText).Some?
       && forall i :: 0 <= i < j ==> PhoneMatch(PhonePatterns[i], headerText, fullText).None?) ==>
      Phone(headerText, fullText) == CleanFieldValue(PhoneMatch(PhonePatterns[j], headerText, fullText).value, PhoneField)
  {
    var try := PhoneTry(headerText, fullText);
    FirstSomeDescribed(PhonePatterns, try, 0);
    assert forall i :: 0 <= i < |PhonePatterns| ==> try(PhonePatterns[i]) == PhoneMatch(PhonePatterns[i], headerText, fullText);
  }

  /** A number found in the header is preferred to one found elsewhere in the text. */
  lemma HeaderPhoneFirst(p: Pattern, headerText: string, fullText: string)
    ensures FirstText(p, headerText).Some? ==> PhoneMatch(p, headerText, fullText) == FirstText(p, headerText)
    ensures FirstText(p, headerText).None? ==> PhoneMatch(p, headerText, fullText) == FirstText(p, fullText)
  {
  }

  /** A text that starts with `https://` keeps a character after white space is removed. */
  lemma SchemeNotBlank(site: string, handle: string)
    ensures Normalize.NonSpace("https://" + site + handle) != ""
  {
    var v := "https://" + site + handle;
    assert v[0] == 'h';
    assert Normalize.NonSpace(v) == [v[0]] + Normalize.NonSpace(v[1..]);
  }

  /** A profile link is `''` exactly when no pattern matches. Otherwise it is a non-empty URL
      that begins with `http`: `https://`, the site and the handle captured by the first
      pattern that matches, cleaned as a URL. */
  lemma ProfileDescribed(site: string, text: string)
    ensures (forall i :: 0 <= i < |ProfilePatterns(site)| ==> Search(ProfilePatterns(site)[i], text).None?) <==>
      Profile(site, text) == ""
    ensures (exists i :: 0 <= i < |ProfilePatterns(site)| && Search(ProfilePatterns(site)[i], text).Some?) ==>
      StartsWith(Profile(site, text), "http")
    ensures forall i ::
      (0 <= i < |ProfilePatterns(site)| && Search(ProfilePatterns(site)[i], text).Some?
       && forall j :: 0 <= j < i ==> Search(ProfilePatterns(site)[j], text).None?) ==>
      Profile(site, text) == CleanFieldValue("https://" + site + GroupOr(text, Search(ProfilePatterns(site)[i], text).value, 1), UrlField)
  {
    HandleFound(site, text);
    match HandleOf(site, text)
    case Some(h) =>
      SchemeNotBlank(site, h);
      assert Normalize.NonSpace(Cleaned("https://" + site + h)) != "";
    case None =>
  }

  /** The profile loop finds no handle exactly when no pattern matches, and otherwise the
      handle captured by the first pattern that matches. */
  lemma HandleFound(site: string, text: string)
    ensures (forall i :: 0 <= i < |ProfilePatterns(site)| ==> Search(ProfilePatterns(site)[i], text).None?) <==>
      HandleOf(site, text).None?
    ensures forall i ::
      (0 <= i < |ProfilePatterns(site)| && Search(ProfilePatterns(site)[i], text).Some?
       && forall j :: 0 <= j < i ==> Search(ProfilePatterns(site)[j], text).None?) ==>
      HandleOf(site, text) == Some(GroupOr(text, Search(ProfilePatterns(site)[i], text).value, 1))
  {
    var patterns, try := ProfilePatterns(site), HandleTry(text);
    FirstSomeDescribed(patterns, try, 0);
    assert forall i :: 0 <= i < |patterns| ==> (try(patterns[i]).None? <==> Search(patterns[i], text).None?);
    forall i | 0 <= i < |patterns| && Search(patterns[i], text).Some?
      ensures try(patterns[i]) == Some(GroupOr(text, Search(patterns[i], text).value, 1))
    {
    }
  }

  /** `https://`, a site and a handle without white space make a link without white
      space. */
  lemma SchemeSpaceFree(site: string, handle: string)
    requires SpaceFree(site) && SpaceFree(handle)
    ensures SpaceFree("https://" + site + handle)
  {
    var v := "https://" + site + handle;
    forall q | 0 <= q < |v| ensures !IsSpace(v[q]) {
      if q < 8 {
        assert v[q] == "https://"[q];
      } else if q < 8 + |site| {
        assert v[q] == site[q - 8];
      } else {
        assert v[q] == handle[q - 8 - |site|];
      }
    }
  }

  /** When the first pattern that matches captures a handle without white space, and the
      site has none, the link is exactly `https://`, the site and the handle: the clean-up
      changes nothing. */
  lemma ProfileLink(site: string, text: string, i: nat)
    requires i < |ProfilePatterns(site)| && Search(ProfilePatterns(site)[i], text).Some?
    requires forall j :: 0 <= j < i ==> Search(ProfilePatterns(site)[j], text).None?
    requires SpaceFree(site) && SpaceFree(GroupOr(text, Search(ProfilePatterns(site)[i], text).value, 1))
    ensures Profile(site, text) == "https://" + site + GroupOr(text, Search(ProfilePatterns(site)[i], text).value, 1)
  {
    var handle := GroupOr(text, Search(ProfilePatterns(site)[i], text).value, 1);
    ProfileDescribed(site, text);
    UrlKept("https://" + site + handle, site, handle);
  }

  /** A link that starts with `https://` and holds no white space is its own clean-up. */
  lemma UrlKept(v: string, site: string, handle: string)
    requires v == "https://" + site + handle && SpaceFree(site) && SpaceFree(handle)
    ensures CleanFieldValue(v, UrlField) == v
  {
    SchemeSpaceFree(site, handle);
    SpaceFreeUnchanged(v);
    TrimUnchanged(v);
    assert Cleaned(v) == v;
    assert v[..4] == "http";
  }

  /** The LinkedIn link carries the handle of the first pattern that matches. */
  lemma LinkedInLink(text: string, i: nat)
    requires i < |ProfilePatterns(LINKEDIN_PATH)| && Search(ProfilePatterns(LINKEDIN_PATH)[i], text).Some?
    requires forall j :: 0 <= j < i ==> Search(ProfilePatterns(LINKEDIN_PATH)[j], text).None?
    requires SpaceFree(GroupOr(text, Search(ProfilePatterns(LINKEDIN_PATH)[i], text).value, 1))
    ensures LinkedIn(text) == "https://" + LINKEDIN_PATH + GroupOr(text, Search(ProfilePatterns(LINKEDIN_PATH)[i], text).value, 1)
  {
    SitePathSpaceFree(LINKEDIN_PATH);
    ProfileLink(LINKEDIN_PATH, text, i);
  }

  /** The GitHub link carries the handle of the first pattern that matches. */
  lemma GitHubLink(text: string, i: nat)
    requires i < |ProfilePatterns(GITHUB_PATH)| && Search(ProfilePatterns(GITHUB_PATH)[i], text).Some?
    requires forall j :: 0 <= j < i ==> Search(ProfilePatterns(GITHUB_PATH)[j], text).None?
    requires SpaceFree(GroupOr(text, Search(ProfilePatterns(GITHUB_PATH)[i], text).value, 1))
    ensures GitHub(text) == "https://" + GITHUB_PATH + GroupOr(text, Search(ProfilePatterns(GITHUB_PATH)[i], text).value, 1)
  {
    SitePathSpaceFree(GITHUB_PATH);
    ProfileLink(GITHUB_PATH, text, i);
  }

  /** Neither site path holds white space. */
  lemma SitePathSpaceFree(site: string)
    requires site == LINKEDIN_PATH || site == GITHUB_PATH
    ensures SpaceFree(site)
  {
    forall q | 0 <= q < |site| ensures !IsSpace(site[q]) {
      if site == LINKEDIN_PATH {
        assert site[q] in "linkedin.com/in/";
      } else {
        assert site[q] in "github.com/";
      }
    }
  }
}
