/**
 * Parsing one clinical-trial record of the registry's JSON: the age strings,
 * the inclusion/exclusion split of the eligibility text, the bullet items of
 * each section, and the keyword flag tables. The regular expressions of the
 * source are modelled by what they match, over ASCII text.
 */
module TrialParsing {
  import opened Wrappers
  import opened Strings

  // ---------------------------------------------------------------------------
  // parse_age: the first run of digits
  // ---------------------------------------------------------------------------

  function FirstDigit(s: string, i: nat): (r: nat)
    requires i <= |s|
    decreases |s| - i
    ensures i <= r <= |s|
    ensures forall k :: i <= k < r ==> !IsDigit(s[k])
    ensures r < |s| ==> IsDigit(s[r])
  {
    if i == |s| || IsDigit(s[i]) then i else FirstDigit(s, i + 1)
  }

  /** `parse_age`: None for an empty string or one without digits, else the value of its first digit run. */
  function ParseAge(s: string): (r: Option<nat>)
    ensures r.None? <==> forall k :: 0 <= k < |s| ==> !IsDigit(s[k])
  {
    if s == "" then None
    else
      var i := FirstDigit(s, 0);
      if i == |s| then None
      else
        var j := DigitRunEnd(s, i);
        assert AllDigits(s[i..j]) by {
          forall m | 0 <= m < j - i ensures IsDigit(s[i..j][m]) {
            assert s[i..j][m] == s[i + m];
          }
        }
        Some(DigitsValue(s[i..j]))
  }

  lemma {:induction false} DigitRunEndAt(s: string, i: nat, j: nat)
    requires i <= j <= |s|
    requires forall k :: i <= k < j ==> IsDigit(s[k])
    requires j < |s| ==> !IsDigit(s[j])
    decreases j - i
    ensures DigitRunEnd(s, i) == j
  {
    if i < j {
      DigitRunEndAt(s, i + 1, j);
    }
  }

  /** A number followed by a unit reads back as that number: `parse_age("40 Years") == 40`. */
  lemma ParseAgeOfRendering(n: nat, unit: string)
    requires unit == "" || !IsDigit(unit[0])
    ensures ParseAge(NatToString(n) + unit) == Some(n)
  {
    var d := NatToString(n);
    var s := d + unit;
    assert IsDigit(s[0]);
    assert FirstDigit(s, 0) == 0;
    DigitRunEndAt(s, 0, |d|);
    assert s[0..|d|] == d;
    NatToStringValue(n);
  }

  lemma ParseAgeYears()
    ensures ParseAge("40 Years") == Some(40)
    ensures ParseAge("N/A") == None
    ensures ParseAge("") == None
  {
    assert NatToString(40) == "40" by {
      assert NatToString(4) == "4";
      assert NatToString(40) == NatToString(4) + [DigitChar(0)];
    }
    ParseAgeOfRendering(40, " Years");
    assert "40" + " Years" == "40 Years";
    assert !IsDigit("N/A"[0]) && !IsDigit("N/A"[1]) && !IsDigit("N/A"[2]);
  }

  // ---------------------------------------------------------------------------
  // The section split: re.split on either heading
  // ---------------------------------------------------------------------------

  const InclusionMarker: string := "Inclusion Criteria:"
  const ExclusionMarker: string := "Exclusion Criteria:"
  const MarkerLength: nat := 19

  predicate MarkerAt(s: string, i: int) {
    OccursAt(s, InclusionMarker, i) || OccursAt(s, ExclusionMarker, i)
  }

  ghost predicate NoMarker(s: string) { forall k :: !MarkerAt(s, k) }

  function NextMarker(s: string, i: nat): (r: Option<nat>)
    requires i <= |s|
    decreases |s| - i
    ensures r.Some? ==> i <= r.value && r.value + MarkerLength <= |s| && MarkerAt(s, r.value)
    ensures r.Some? ==> forall k :: i <= k < r.value ==> !MarkerAt(s, k)
    ensures r.None? ==> forall k :: i <= k ==> !MarkerAt(s, k)
  {
    if MarkerAt(s, i) then Some(i)
    else if i + MarkerLength >= |s| then None
    else NextMarker(s, i + 1)
  }

  /** `re.split(r'Inclusion Criteria:|Exclusion Criteria:', s)`. */
  function SplitMarkers(s: string): (r: seq<string>)
    ensures |r| >= 1
    decreases |s|
  {
    match NextMarker(s, 0)
    case None => [s]
    case Some(m) => [s[..m]] + SplitMarkers(s[m + MarkerLength..])
  }

  lemma PrefixNoMarker(s: string, m: nat)
    requires m <= |s|
    requires forall k :: 0 <= k < m ==> !MarkerAt(s, k)
    ensures NoMarker(s[..m])
  {
    forall k | MarkerAt(s[..m], k) ensures false {
      assert |InclusionMarker| == MarkerLength && |ExclusionMarker| == MarkerLength;
      if OccursAt(s[..m], InclusionMarker, k) {
        PrefixOccurs(s, m, InclusionMarker, k);
      } else {
        PrefixOccurs(s, m, ExclusionMarker, k);
      }
      assert MarkerAt(s, k);
    }
  }

  lemma PrefixOccurs(s: string, m: nat, sub: string, k: int)
    requires m <= |s|
    requires OccursAt(s[..m], sub, k)
    ensures OccursAt(s, sub, k) && k + |sub| <= m
  {
    assert s[..m][k..k + |sub|] == s[k..k + |sub|];
  }

  /** No piece of the split holds a heading, and joining the pieces back around headings gives the text. */
  lemma {:induction false} SplitMarkersPieces(s: string)
    decreases |s|
    ensures forall k :: 0 <= k < |SplitMarkers(s)| ==> NoMarker(SplitMarkers(s)[k])
    ensures NextMarker(s, 0).None? <==> |SplitMarkers(s)| == 1
  {
    match NextMarker(s, 0)
    case None =>
      forall k | MarkerAt(s, k) ensures false { }
    case Some(m) =>
      PrefixNoMarker(s, m);
      SplitMarkersPieces(s[m + MarkerLength..]);
  }

  /** The inclusion piece, cut at a later "Exclusion Criteria:" when one follows (never found at index 0). */
  function InclusionText(t: string): string
  {
    match FindFrom(t, ExclusionMarker, 0)
    case Some(e) => if e != 0 then t[..e] else t
    case None => t
  }

  /** A split piece never holds a heading, so the cut never applies. */
  lemma InclusionCutIsIdle(t: string)
    requires NoMarker(t)
    ensures InclusionText(t) == t
  {
    match FindFrom(t, ExclusionMarker, 0)
    case Some(e) => assert MarkerAt(t, e);
    case None =>
  }

  // ---------------------------------------------------------------------------
  // The bullet items: re.findall(r'\*\s*(.*?)(?=\n\*|\n\n|$)', text)
  // ---------------------------------------------------------------------------

  function NextNewline(s: string, i: nat): (r: nat)
    requires i <= |s|
    decreases |s| - i
    ensures i <= r <= |s|
    ensures forall k :: i <= k < r ==> s[k] != '\n'
    ensures r < |s| ==> s[r] == '\n'
  {
    if i == |s| || s[i] == '\n' then i else NextNewline(s, i + 1)
  }

  /** The lookahead `(?=\n\*|\n\n|$)`, where `$` also holds just before a final newline. */
  predicate ItemEndsAt(s: string, n: nat) {
    n == |s| || (n < |s| && s[n] == '\n' && (n + 1 == |s| || s[n + 1] == '*' || s[n + 1] == '\n'))
  }

  /**
   * Where the group of a match at the `*` at `p` starts. `(.*?)` stops at the
   * first position the lookahead accepts and cannot pass a newline, so from a
   * start it ends at the next newline or fails there; on failure `\s*` gives
   * back one character and the match is tried again.
   */
  function GroupStart(s: string, p: nat, start: nat): (r: Option<nat>)
    requires p < start <= |s|
    decreases start
    ensures r.Some? ==> p < r.value <= start && ItemEndsAt(s, NextNewline(s, r.value))
    ensures r.None? ==> forall k :: p < k <= start ==> !ItemEndsAt(s, NextNewline(s, k))
  {
    if ItemEndsAt(s, NextNewline(s, start)) then Some(start)
    else if start == p + 1 then None
    else GroupStart(s, p, start - 1)
  }

  /** The captured groups, scanning from `i`; each match resumes where its group ended. */
  function FindBullets(s: string, i: nat): (r: seq<string>)
    requires i <= |s|
    decreases |s| - i
    ensures forall k :: 0 <= k < |r| ==> '\n' !in r[k]
  {
    if i == |s| then []
    else if s[i] == '*' then
      match GroupStart(s, i, SpaceRunEnd(s, i + 1))
      case Some(g) =>
        var n := NextNewline(s, g);
        assert forall x :: x in s[g..n] ==> x != '\n' by {
          forall x | x in s[g..n] ensures x != '\n' {
            var m :| 0 <= m < n - g && s[g..n][m] == x;
            assert s[g..n][m] == s[g + m];
          }
        }
        [s[g..n]] + FindBullets(s, n)
      case None => FindBullets(s, i + 1)
    else FindBullets(s, i + 1)
  }

  function StripAll(xs: seq<string>): (r: seq<string>)
    ensures |r| == |xs| && forall k :: 0 <= k < |r| ==> r[k] == Strip(xs[k])
  {
    if xs == [] then [] else [Strip(xs[0])] + StripAll(xs[1..])
  }

  /** The stripped bullet items of a section. */
  function Bullets(t: string): (r: seq<string>)
    ensures forall k :: 0 <= k < |r| ==> '\n' !in r[k]
  {
    var items := FindBullets(t, 0);
    var r := StripAll(items);
    assert forall k :: 0 <= k < |r| ==> '\n' !in r[k] by {
      forall k | 0 <= k < |r| ensures '\n' !in r[k] {
        StripKeepsOut(items[k], '\n');
      }
    }
    r
  }

  /** There are no more items than asterisks. */
  function CountStars(s: string, i: nat): nat
    requires i <= |s|
    decreases |s| - i
  {
    if i == |s| then 0 else (if s[i] == '*' then 1 else 0) + CountStars(s, i + 1)
  }

  lemma {:induction false} CountStarsMonotone(s: string, i: nat, j: nat)
    requires i <= j <= |s|
    decreases j - i
    ensures CountStars(s, j) <= CountStars(s, i)
  {
    if i < j {
      CountStarsMonotone(s, i + 1, j);
    }
  }

  lemma {:induction false} BulletsAtMostStars(s: string, i: nat)
    requires i <= |s|
    decreases |s| - i
    ensures |FindBullets(s, i)| <= CountStars(s, i)
  {
    if i < |s| {
      if s[i] == '*' {
        match GroupStart(s, i, SpaceRunEnd(s, i + 1))
        case Some(g) =>
          var n := NextNewline(s, g);
          BulletsAtMostStars(s, n);
          CountStarsMonotone(s, i + 1, n);
        case None =>
          BulletsAtMostStars(s, i + 1);
      } else {
        BulletsAtMostStars(s, i + 1);
      }
    }
  }

  /** `extract_inclusion_exclusion`. */
  function InclusionExclusion(text: string): (r: (seq<string>, seq<string>))
    ensures |SplitMarkers(text)| < 2 ==> r == ([], [])
    ensures |SplitMarkers(text)| < 3 ==> r.1 == []
  {
    var sections := SplitMarkers(text);
    var inclusion := if |sections| >= 2 then Bullets(InclusionText(sections[1])) else [];
    var exclusion := if |sections| >= 3 then Bullets(sections[2]) else [];
    (inclusion, exclusion)
  }

  /** Piece 1 is read as the inclusion list, and piece 2 as the exclusion list, whichever heading precedes each. */
  lemma InclusionExclusionPieces(text: string)
    ensures |SplitMarkers(text)| >= 2 ==> InclusionExclusion(text).0 == Bullets(SplitMarkers(text)[1])
    ensures |SplitMarkers(text)| >= 3 ==> InclusionExclusion(text).1 == Bullets(SplitMarkers(text)[2])
    ensures NextMarker(text, 0).None? ==> InclusionExclusion(text) == ([], [])
  {
    SplitMarkersPieces(text);
    if |SplitMarkers(text)| >= 2 {
      InclusionCutIsIdle(SplitMarkers(text)[1]);
    }
  }

  // ---------------------------------------------------------------------------
  // A worked example: one bullet under each heading
  // ---------------------------------------------------------------------------

  lemma NoColonNoMarker(s: string)
    requires ':' !in s
    ensures NoMarker(s)
  {
    forall k ensures !MarkerAt(s, k) {
      if 0 <= k && k + MarkerLength <= |s| {
        assert s[k + 18] == s[k..k + MarkerLength][18];
      }
    }
  }

  lemma {:induction false} NextMarkerAt(s: string, i: nat, j: nat)
    requires i <= j <= |s| && MarkerAt(s, j)
    requires forall k :: i <= k < j ==> !MarkerAt(s, k)
    decreases j - i
    ensures NextMarker(s, i) == Some(j)
  {
    if i < j {
      NextMarkerAt(s, i + 1, j);
    }
  }

  /** Text free of ':' followed by a heading splits right at the heading. */
  lemma SplitAtMarker(x: string, m: string, y: string)
    requires m == InclusionMarker || m == ExclusionMarker
    requires ':' !in x
    ensures SplitMarkers(x + m + y) == [x] + SplitMarkers(y)
  {
    var s := x + m + y;
    assert s[|x|..|x| + MarkerLength] == m;
    assert ':' !in m[..18];
    forall k | 0 <= k < |x| ensures !MarkerAt(s, k) {
      if k + MarkerLength <= |s| {
        assert s[k + 18] == s[k..k + MarkerLength][18];
        if k + 18 < |x| {
          assert s[k + 18] == x[k + 18];
        } else {
          assert s[k + 18] == m[..18][k + 18 - |x|];
        }
      }
    }
    NextMarkerAt(s, 0, |x|);
    assert s[..|x|] == x;
    assert s[|x| + MarkerLength..] == y;
  }

  /** A heading at the very start gives an empty first piece. */
  lemma SplitAtStart(m: string, y: string)
    requires m == InclusionMarker || m == ExclusionMarker
    ensures SplitMarkers(m + y) == [""] + SplitMarkers(y)
  {
    SplitAtMarker("", m, y);
    assert "" + m + y == m + y;
  }

  lemma NoColonSplit(y: string)
    requires ':' !in y
    ensures SplitMarkers(y) == [y]
  {
    NoColonNoMarker(y);
  }

  lemma {:induction false} NextNewlineAt(s: string, i: nat, j: nat)
    requires i <= j <= |s|
    requires forall k :: i <= k < j ==> s[k] != '\n'
    requires j < |s| ==> s[j] == '\n'
    decreases j - i
    ensures NextNewline(s, i) == j
  {
    if i < j {
      NextNewlineAt(s, i + 1, j);
    }
  }

  /** A section holding one bullet `* w`, closed by a blank line or by the end of the text. */
  lemma OneBullet(w: string, tail: string)
    requires w != [] && '\n' !in w && !IsSpace(w[0]) && !IsSpace(w[|w| - 1])
    requires tail == "\n\n" || tail == ""
    ensures Bullets("\n* " + w + tail) == [w]
  {
    var p := "\n* " + w + tail;
    var n := 3 + |w|;
    assert p[3..n] == w;
    assert p[2] == ' ' && p[3] == w[0];
    assert SpaceRunEnd(p, 3) == 3;
    assert SpaceRunEnd(p, 2) == 3;
    forall k | 3 <= k < n ensures p[k] != '\n' {
      assert p[k] == w[k - 3];
    }
    NextNewlineAt(p, 3, n);
    assert ItemEndsAt(p, n);
    assert GroupStart(p, 1, 3) == Some(3);
    if tail == "" {
      assert FindBullets(p, n) == [];
    } else {
      assert p[n] == '\n' && p[n + 1] == '\n';
      assert FindBullets(p, n + 2) == [];
      assert FindBullets(p, n + 1) == [];
      assert FindBullets(p, n) == [];
    }
    assert FindBullets(p, 1) == [w];
    assert FindBullets(p, 0) == [w];
  }

  const ExampleInclusion: string := "\n* " + "Test Inclusion" + "\n\n"
  const ExampleExclusion: string := "\n* " + "Test Exclusion" + ""
  /** "Inclusion Criteria:\n* Test Inclusion\n\nExclusion Criteria:\n* Test Exclusion" */
  const ExampleText: string := InclusionMarker + (ExampleInclusion + ExclusionMarker + ExampleExclusion)

  lemma ExampleSections()
    ensures SplitMarkers(ExampleText) == ["", ExampleInclusion, ExampleExclusion]
  {
    SplitAtStart(InclusionMarker, ExampleInclusion + ExclusionMarker + ExampleExclusion);
    SplitAtMarker(ExampleInclusion, ExclusionMarker, ExampleExclusion);
    NoColonSplit(ExampleExclusion);
  }

  lemma ExampleInclusionBullet()
    ensures Bullets(ExampleInclusion) == ["Test Inclusion"]
  {
    OneBullet("Test Inclusion", "\n\n");
  }

  lemma ExampleExclusionBullet()
    ensures Bullets(ExampleExclusion) == ["Test Exclusion"]
  {
    OneBullet("Test Exclusion", "");
  }

  /** The worked text gives exactly one item in each list. */
  lemma InclusionExclusionExample()
    ensures InclusionExclusion(ExampleText) == (["Test Inclusion"], ["Test Exclusion"])
  {
    ExampleSections();
    NoColonNoMarker(ExampleInclusion);
    InclusionCutIsIdle(ExampleInclusion);
    ExampleInclusionBullet();
    ExampleExclusionBullet();
  }

  // ---------------------------------------------------------------------------
  // Keyword flags
  // ---------------------------------------------------------------------------

  /** One alternative of a flag's regular expression. */
  datatype Pattern =
    | Lit(text: string)               // the text itself
    | Gap(first: string, last: string) // `first.+last`: at least one non-newline character between
    | One(first: string, last: string) // `first.last`: exactly one non-newline character between

  predicate NoNewline(s: string) { forall k :: 0 <= k < |s| ==> s[k] != '\n' }

  predicate PatternMatches(p: Pattern, s: string)
  {
    match p
    case Lit(t) => Contains(s, t)
    case Gap(a, b) =>
      exists i, j :: 0 <= i && i + |a| < j && j + |b| <= |s|
        && OccursAt(s, a, i) && OccursAt(s, b, j) && NoNewline(s[i + |a|..j])
    case One(a, b) =>
      exists i :: 0 <= i && i + |a| < |s| && OccursAt(s, a, i)
        && s[i + |a|] != '\n' && OccursAt(s, b, i + |a| + 1)
  }

  function FoldPattern(p: Pattern): Pattern
  {
    match p
    case Lit(t) => Lit(Lower(t))
    case Gap(a, b) => Gap(Lower(a), Lower(b))
    case One(a, b) => One(Lower(a), Lower(b))
  }

  /** A flag with its alternatives; `ignoreCase` is `re.IGNORECASE` (ASCII case folding). */
  datatype Rule = Rule(flag: string, patterns: seq<Pattern>, ignoreCase: bool)

  predicate RuleMatches(r: Rule, s: string)
  {
    exists k :: 0 <= k < |r.patterns| &&
      (if r.ignoreCase then PatternMatches(FoldPattern(r.patterns[k]), Lower(s)) else PatternMatches(r.patterns[k], s))
  }

  function Lits(ts: seq<string>): (r: seq<Pattern>)
    ensures |r| == |ts| && forall k :: 0 <= k < |r| ==> r[k] == Lit(ts[k])
  {
    if ts == [] then [] else [Lit(ts[0])] + Lits(ts[1..])
  }

  const DsmRule := Rule("requires_dsm5_diagnosis", [Lit("DSM-5"), Lit("DSM 5")], false)
  const StrawRule := Rule("requires_straw_criteria", [Lit("STRAW")], false)
  const EnglishRule := Rule("requires_english", [Gap("speak", "English"), Gap("English", "speak"), Gap("read", "English"), Gap("English", "read")], true)
  const InternetRule := Rule("requires_internet", [Lit("internet access"), Gap("access to", "internet")], true)
  const TestsRule := Rule("requires_specific_tests", Lits(["test", "assessment", "score", "scale", "measurement"]), true)
  const MedicationRule := Rule("has_medication_requirements", Lits(["medication", "drug", "treatment", "therapy"]), true)
  const ComorbidityRule := Rule("has_comorbidity_restrictions", Lits(["comorbid", "co-morbid", "other condition", "other disorder"]), true)
  const SubstanceRule := Rule("has_substance_restrictions", Lits(["alcohol", "substance", "drug use", "addiction"]), true)
  const PsychiatricRule := Rule("has_psychiatric_restrictions", Lits(["psychosis", "mania", "suicidal", "homicidal", "psychiatric"]), true)
  const PregnancyRule := Rule("has_pregnancy_restrictions", Lits(["pregnan", "birth control", "contracepti"]), true)

  /** The eligibility-text flags, in the order the source tests them. */
  const EligibilityRules: seq<Rule> := [
    DsmRule, StrawRule, EnglishRule, InternetRule, TestsRule, MedicationRule,
    ComorbidityRule, SubstanceRule, PsychiatricRule, PregnancyRule]

  const PerimenopauseRule := Rule("targets_perimenopausal_women", [Gap("women", "perimenopause"), Gap("perimenopause", "women")], true)
  const OnlineTherapyRule := Rule("involves_online_therapy", [Gap("online", "therapy"), Gap("internet", "therapy"), Lit("e-CBT"), Gap("electronic", "therapy")], true)
  const AssessmentsRule := Rule("requires_assessments", Lits(["questionnaire", "survey", "assessment", "interview"]), true)
  /** `follow.?up|follow.up visit`: the literal "followup", or one character between. */
  const FollowupRule := Rule("requires_followup", [Lit("followup"), One("follow", "up"), One("follow", "up visit")], true)

  /** The brief-summary flags. */
  const SummaryRules: seq<Rule> := [PerimenopauseRule, OnlineTherapyRule, AssessmentsRule, FollowupRule]

  /** The flags a rule table sets on a text: each matching rule's flag, always `True`. */
  function FlagsOf(text: string, rules: seq<Rule>): (r: map<string, bool>)
    ensures forall k :: k in r ==> r[k]
  {
    if rules == [] then map[]
    else
      var last := rules[|rules| - 1];
      FlagsOf(text, rules[..|rules| - 1]) + (if RuleMatches(last, text) then map[last.flag := true] else map[])
  }

  /** A flag is present exactly when one of its rules matches, and never present as `False`. */
  lemma {:induction false} FlagsOfKeys(text: string, rules: seq<Rule>)
    ensures forall f :: f in FlagsOf(text, rules) <==>
      exists k :: 0 <= k < |rules| && rules[k].flag == f && RuleMatches(rules[k], text)
  {
    if rules != [] {
      var init := rules[..|rules| - 1];
      FlagsOfKeys(text, init);
      forall f ensures f in FlagsOf(text, rules) <==>
        exists k :: 0 <= k < |rules| && rules[k].flag == f && RuleMatches(rules[k], text)
      {
        if f in FlagsOf(text, init) {
          var k :| 0 <= k < |init| && init[k].flag == f && RuleMatches(init[k], text);
          assert rules[k] == init[k];
        }
        if exists k :: 0 <= k < |rules| && rules[k].flag == f && RuleMatches(rules[k], text) {
          var k :| 0 <= k < |rules| && rules[k].flag == f && RuleMatches(rules[k], text);
          if k < |init| {
            assert init[k] == rules[k];
          }
        }
      }
    }
  }

  /** One more rule sets its flag exactly when it matches. */
  lemma FlagsOfStep(text: string, rules: seq<Rule>, i: nat)
    requires i < |rules|
    ensures RuleMatches(rules[i], text) ==>
      FlagsOf(text, rules[..i + 1]) == FlagsOf(text, rules[..i])[rules[i].flag := true]
    ensures !RuleMatches(rules[i], text) ==> FlagsOf(text, rules[..i + 1]) == FlagsOf(text, rules[..i])
  {
    assert rules[..i + 1][..i] == rules[..i];
    var m := FlagsOf(text, rules[..i]);
    var f := rules[i].flag;
    assert m + map[f := true] == m[f := true];
    assert m + map[] == m;
  }

  /** The dict filled flag by flag, as `extract_additional_criteria` and `extract_criteria_from_summary` do. */
  method FillFlags(text: string, rules: seq<Rule>) returns (flags: map<string, bool>)
    ensures flags == FlagsOf(text, rules)
  {
    flags := map[];
    for i := 0 to |rules|
      invariant flags == FlagsOf(text, rules[..i])
    {
      FlagsOfStep(text, rules, i);
      if RuleMatches(rules[i], text) {
        flags := flags[rules[i].flag := true];
      }
    }
    assert rules[..|rules|] == rules;
  }

  method ExtractAdditionalCriteria(text: string) returns (flags: map<string, bool>)
    ensures flags == FlagsOf(text, EligibilityRules)
  {
    flags := FillFlags(text, EligibilityRules);
  }

  method ExtractCriteriaFromSummary(summary: string) returns (flags: map<string, bool>)
    ensures flags == FlagsOf(summary, SummaryRules)
  {
    flags := FillFlags(summary, SummaryRules);
  }

  /** `dict.update` of one flag dict with another: every key of either, all `True` when both are. */
  function MergeFlags(a: map<string, bool>, b: map<string, bool>): (r: map<string, bool>)
    ensures forall f :: f in r <==> f in a || f in b
    ensures forall f :: f in b ==> r[f] == b[f]
    ensures forall f :: f in a && f !in b ==> r[f] == a[f]
  {
    a + b
  }

  /** The eligibility flags updated with the summary flags. */
  function AdditionalCriteria(text: string, summary: string): map<string, bool>
  {
    MergeFlags(FlagsOf(text, EligibilityRules), FlagsOf(summary, SummaryRules))
  }

  /** Every merged flag comes from one of the two tables and is `True`. */
  lemma MergedFlagsTrue(text: string, rules: seq<Rule>, summary: string, summaryRules: seq<Rule>)
    ensures forall f :: f in MergeFlags(FlagsOf(text, rules), FlagsOf(summary, summaryRules)) ==>
      MergeFlags(FlagsOf(text, rules), FlagsOf(summary, summaryRules))[f]
  {
  }

  /** The DSM test is case-sensitive. */
  lemma DsmCaseSensitive()
    ensures PatternMatches(Lit("DSM-5"), "DSM-5")
    ensures !PatternMatches(Lit("DSM-5"), "dsm-5") && !PatternMatches(Lit("DSM 5"), "dsm-5")
  {
    assert OccursAt("DSM-5", "DSM-5", 0);
    OccursInContains("DSM-5", "DSM-5", 0);
    ContainsIff("dsm-5", "DSM-5");
    ContainsIff("dsm-5", "DSM 5");
    forall k ensures !OccursAt("dsm-5", "DSM-5", k) && !OccursAt("dsm-5", "DSM 5", k) {
      if 0 <= k && k + 5 <= 5 {
        assert "dsm-5"[k..k + 5] == "dsm-5";
      }
    }
  }

  /** The test/assessment flag folds case: "TEST" sets it. */
  lemma TestsFoldCase()
    ensures RuleMatches(TestsRule, "TEST")
  {
    assert TestsRule.patterns[0] == Lit("test");
    assert Lower("TEST") == "test";
    assert FoldPattern(Lit("test")) == Lit("test") by {
      assert Lower("test") == "test";
    }
    assert OccursAt("test", "test", 0);
    OccursInContains("test", "test", 0);
    assert PatternMatches(FoldPattern(TestsRule.patterns[0]), Lower("TEST"));
  }
}
