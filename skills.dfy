/** The skills list of a résumé (`extractSkills`). */
module Skills {
  import opened Text
  import opened Lists
  import opened Fields

  /** The separators between skills: `[,•·|;/]`. */
  predicate IsSkillSep(c: char)
  {
    c == ',' || c == '•' || c == '·' || c == '|' || c == ';' || c == '/'
  }

  /** The trimmed pieces between separators that are 2 to 49 characters long, in order. */
  function SizedPieces(pieces: seq<string>): (r: seq<string>)
    ensures forall k :: 0 <= k < |r| ==> 1 < |r[k]| < 50
  {
    if pieces == [] then []
    else
      var t := Trim(pieces[|pieces| - 1]);
      SizedPieces(pieces[..|pieces| - 1]) + (if 1 < |t| < 50 then [t] else [])
  }

  /** Each raw skill is a trimmed piece of the text between separators. */
  lemma {:induction false} SizedPiecesFrom(pieces: seq<string>)
    ensures forall k :: 0 <= k < |SizedPieces(pieces)| ==>
      exists j :: 0 <= j < |pieces| && SizedPieces(pieces)[k] == Trim(pieces[j])
  {
    if pieces != [] {
      var init := pieces[..|pieces| - 1];
      SizedPiecesFrom(init);
      var t := Trim(pieces[|pieces| - 1]);
      assert SizedPieces(pieces) == SizedPieces(init) + (if 1 < |t| < 50 then [t] else []);
      forall k | 0 <= k < |SizedPieces(pieces)|
        ensures exists j :: 0 <= j < |pieces| && SizedPieces(pieces)[k] == Trim(pieces[j])
      {
        if k < |SizedPieces(init)| {
          var j :| 0 <= j < |init| && SizedPieces(init)[k] == Trim(init[j]);
          assert init[j] == pieces[j];
        } else {
          var j := |pieces| - 1;
          assert SizedPieces(pieces)[k] == Trim(pieces[j]);
        }
      }
    } else {
      assert SizedPieces(pieces) == [];
    }
  }

  /** The raw skills: the text of all lines joined by spaces, split at the separators,
      trimmed, and kept when 2 to 49 characters long. */
  function RawSkills(lines: seq<string>): seq<string>
  {
    SizedPieces(SplitWhere(Join(lines, " "), IsSkillSep))
  }

  function CleanSkill(raw: string): string
  {
    CleanFieldValue(DropMarker(raw, "-–:"), TextField)
  }

  /** `clean && !/^\d+$/.test(clean)`. */
  predicate Acceptable(clean: string)
  {
    clean != "" && !AllDigits(clean)
  }

  /** The acceptable cleaned skills, in order, repeats included; `clean` is the cleaning
      applied to each raw piece (`CleanSkill` in the program). */
  function Candidates(clean: string -> string, raw: seq<string>): (r: seq<string>)
    ensures forall k :: 0 <= k < |r| ==> Acceptable(r[k])
  {
    if raw == [] then []
    else
      var c := clean(raw[|raw| - 1]);
      Candidates(clean, raw[..|raw| - 1]) + (if Acceptable(c) then [c] else [])
  }

  /** Each candidate is the cleaned form of a raw piece. */
  lemma {:induction false} CandidatesFrom(clean: string -> string, raw: seq<string>)
    ensures forall k :: 0 <= k < |Candidates(clean, raw)| ==>
      exists j :: 0 <= j < |raw| && Candidates(clean, raw)[k] == clean(raw[j])
  {
    if raw != [] {
      var init := raw[..|raw| - 1];
      CandidatesFrom(clean, init);
      var r := Candidates(clean, raw);
      var c := clean(raw[|raw| - 1]);
      assert r == Candidates(clean, init) + (if Acceptable(c) then [c] else []);
      forall k | 0 <= k < |Candidates(clean, raw)|
        ensures exists j :: 0 <= j < |raw| && Candidates(clean, raw)[k] == clean(raw[j])
      {
        if k < |Candidates(clean, init)| {
          var j :| 0 <= j < |init| && Candidates(clean, init)[k] == clean(init[j]);
          assert init[j] == raw[j];
        } else {
          var j := |raw| - 1;
          assert r[k] == clean(raw[j]);
        }
      }
    } else {
      assert Candidates(clean, raw) == [];
    }
  }

  function Same(s: string): string { s }

  lemma KeysSame(xs: seq<string>)
    ensures Keys(xs, Same) == xs
  {
  }

  lemma CandidatesStep(clean: string -> string, raw: seq<string>, i: nat)
    requires i < |raw|
    ensures Candidates(clean, raw[..i + 1]) == Candidates(clean, raw[..i])
      + (if Acceptable(clean(raw[i])) then [clean(raw[i])] else [])
  {
    assert raw[..i + 1][..i] == raw[..i];
  }

  /** `extractSkills`. */
  method ExtractSkills(lines: seq<string>) returns (skills: seq<string>)
    ensures skills == DedupBy(Candidates(CleanSkill, RawSkills(lines)), Same)
  {
    var skillText := Join(lines, " ");
    var rawSkills := SizedPieces(SplitWhere(skillText, IsSkillSep));
    var cleaner: string -> string := CleanSkill;
    skills := [];
    for i := 0 to |rawSkills|
      invariant skills == DedupBy(Candidates(cleaner, rawSkills[..i]), Same)
    {
      var clean := cleaner(rawSkills[i]);
      CandidatesStep(cleaner, rawSkills, i);
      var before := Candidates(cleaner, rawSkills[..i]);
      KeysSame(skills);
      if Acceptable(clean) {
        DedupBySnoc(before, clean, Same);
        assert Candidates(cleaner, rawSkills[..i + 1]) == before + [clean];
        assert (clean in Keys(skills, Same)) == (clean in skills);
      } else {
        assert Candidates(cleaner, rawSkills[..i + 1]) == before;
      }
      if Acceptable(clean) && clean !in skills {
        skills := skills + [clean];
      }
    }
    assert rawSkills[..|rawSkills|] == rawSkills;
  }

  /** Removing repeats keeps every candidate among the skills. */
  lemma CandidatesKept(cands: seq<string>, skills: seq<string>)
    requires skills == DedupBy(cands, Same)
    ensures forall i :: 0 <= i < |cands| ==> cands[i] in skills
  {
    DedupByDescribed(cands, Same);
    KeysSame(skills);
  }

  /** The skills have no repeats, none is all digits, each is the cleaned form of a raw
      piece of 2 to 49 characters, and they come in the order of their first occurrence:
      each is the first candidate with its text, they appear in candidate order, and every
      candidate is among them. */
  lemma SkillsDescribed(clean: string -> string, raw: seq<string>, skills: seq<string>)
    requires forall j :: 0 <= j < |raw| ==> 1 < |raw[j]| < 50
    requires skills == DedupBy(Candidates(clean, raw), Same)
    ensures forall i, j :: 0 <= i < j < |skills| ==> skills[i] != skills[j]
    ensures forall k :: 0 <= k < |skills| ==> skills[k] != "" && !AllDigits(skills[k])
    ensures forall k :: 0 <= k < |skills| ==>
      exists j :: 0 <= j < |raw| && skills[k] == clean(raw[j]) && 1 < |raw[j]| < 50
    ensures IsSubsequence(skills, Candidates(clean, raw))
    ensures forall k :: 0 <= k < |skills| ==>
      exists i :: FirstWithKey(Candidates(clean, raw), Same, i) && Candidates(clean, raw)[i] == skills[k]
    ensures forall i :: 0 <= i < |Candidates(clean, raw)| ==> Candidates(clean, raw)[i] in skills
  {
    var cands := Candidates(clean, raw);
    DedupByDescribed(cands, Same);
    CandidatesKept(cands, skills);
    SkillsFromRaw(clean, raw, skills);
    forall i, j | 0 <= i < j < |skills| ensures skills[i] != skills[j] {
      assert Same(skills[i]) != Same(skills[j]);
    }
  }

  /** Each skill kept is an acceptable candidate, the cleaned form of a raw piece. */
  lemma SkillsFromRaw(clean: string -> string, raw: seq<string>, skills: seq<string>)
    requires forall j :: 0 <= j < |raw| ==> 1 < |raw[j]| < 50
    requires skills == DedupBy(Candidates(clean, raw), Same)
    ensures forall k :: 0 <= k < |skills| ==> skills[k] != "" && !AllDigits(skills[k])
    ensures forall k :: 0 <= k < |skills| ==>
      exists j :: 0 <= j < |raw| && skills[k] == clean(raw[j]) && 1 < |raw[j]| < 50
  {
    var cands := Candidates(clean, raw);
    DedupBySubsequence(cands, Same);
    CandidatesFrom(clean, raw);
    SubsequenceMembers(skills, cands);
    forall k | 0 <= k < |skills|
      ensures exists j :: 0 <= j < |raw| && skills[k] == clean(raw[j]) && 1 < |raw[j]| < 50
    {
      assert skills[k] in cands;
      var m :| 0 <= m < |cands| && cands[m] == skills[k];
      var j :| 0 <= j < |raw| && cands[m] == clean(raw[j]);
    }
  }

}
