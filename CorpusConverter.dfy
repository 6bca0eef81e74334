/**
 * Converting one registry study into the simplified corpus line: the known
 * text corrections, the inclusion/exclusion split, the numbered-item
 * rewrite, the escape fix, the drug list and the phase string, and the
 * bracket-and-comma recovery split of a file that is not valid JSON.
 * JSON decoding and the file writes are left out.
 */
module CorpusConverter {
  import opened Wrappers
  import opened Strings

  // ---------------------------------------------------------------------------
  // Records
  // ---------------------------------------------------------------------------

  /** One intervention of the study; `None` is a missing key. */
  datatype InterventionEntry = InterventionEntry(interventionType: Option<string>, name: Option<string>)

  /** The keys of a study that the converter reads, flattened out of their modules. */
  datatype Study = Study(
    nctId: Option<string>,
    briefTitle: Option<string>,
    briefSummary: Option<string>,
    eligibilityCriteria: Option<string>,
    conditions: Option<seq<string>>,
    interventions: Option<seq<InterventionEntry>>,
    phases: Option<seq<string>>)

  datatype Metadata = Metadata(
    briefTitle: string,
    phase: string,
    drugs: string,
    drugsList: seq<string>,
    diseases: string,
    diseasesList: seq<string>,
    inclusionCriteria: string,
    exclusionCriteria: string,
    briefSummary: string)

  datatype Simplified = Simplified(id: string, title: string, text: string, metadata: Metadata)

  // ---------------------------------------------------------------------------
  // The hard-coded corrections
  // ---------------------------------------------------------------------------

  const KellgrenTarget := "Radiographic evidence of OA of the Target Knee (within the last 3 years) with a Kellgren-Lawrence scale of 2 or"
  const KellgrenFix := KellgrenTarget + " 3."
  const BmiTarget := "Subject is extremely obese with BMI ≥"
  const BmiFix := BmiTarget + " 39."
  const TableTarget := "(see Section 1, Table 2)"
  const TableFix := "(see Section 6.1, Table 2)"
  const MedicationTableTarget := "(See Medication/Treatment Table, Section 2)"
  const MedicationTableFix := "(See Medication/Treatment Table, Section 5.1.2)"

  /** The four replacements, in the order the source applies them. */
  function KnownFixes(s: string): (r: string)
    ensures (!Contains(s, KellgrenTarget) && !Contains(s, BmiTarget) && !Contains(s, TableTarget)
      && !Contains(s, MedicationTableTarget)) ==> r == s
  {
    var s1 := Replace(s, KellgrenTarget, KellgrenFix);
    var s2 := Replace(s1, BmiTarget, BmiFix);
    var s3 := Replace(s2, TableTarget, TableFix);
    Replace(s3, MedicationTableTarget, MedicationTableFix)
  }

  // ---------------------------------------------------------------------------
  // The inclusion/exclusion split
  // ---------------------------------------------------------------------------

  const InclusionHeading := "Inclusion Criteria:"
  const ExclusionHeading := "Exclusion Criteria:"

  /**
   * The text after the first inclusion heading, up to the next exclusion
   * heading, and the piece that follows it. `split` always gives at least
   * one piece, so the source's `len(exclusion_parts) > 0` always holds.
   */
  function SplitSections(ec: string): (r: (string, string))
    ensures !Contains(ec, InclusionHeading) ==> r == ("", "")
    ensures Contains(ec, InclusionHeading) ==> IsPrefix("inclusion criteria: ", r.0)
    ensures r.1 == "" || IsPrefix(": ", r.1)
  {
    if !Contains(ec, InclusionHeading) then ("", "")
    else
      var parts := Split(ec, InclusionHeading);
      if |parts| > 1 then
        var exclusionParts := Split(parts[1], ExclusionHeading);
        var inclusion := "inclusion criteria: " + Strip(exclusionParts[0]);
        var exclusion := if |exclusionParts| > 1 then ": " + Strip(exclusionParts[1]) else "";
        assert inclusion[..20] == "inclusion criteria: ";
        assert exclusion != "" ==> exclusion[..2] == ": ";
        (inclusion, exclusion)
      else ("", "")
  }

  /** A heading whose only colon is its last character. */
  predicate ColonHeading(h: string)
  {
    |h| > 0 && h[|h| - 1] == ':' && ':' !in h[..|h| - 1]
  }

  /** A colon-free text cannot contain a colon heading. */
  lemma NoColonNoHeading(s: string, h: string)
    requires ColonHeading(h) && ':' !in s
    ensures forall k :: !OccursAt(s, h, k)
  {
    forall k ensures !OccursAt(s, h, k) {
      if 0 <= k && k + |h| <= |s| {
        assert s[k..k + |h|][|h| - 1] == s[k + |h| - 1];
      }
    }
  }

  /** After a colon-free text, the first occurrence of a colon heading is the one that follows it. */
  lemma HeadingFirst(x: string, h: string, y: string)
    requires ColonHeading(h) && ':' !in x
    ensures forall k :: 0 <= k < |x| ==> !OccursAt(x + h + y, h, k)
  {
    var s := x + h + y;
    forall k | 0 <= k < |x| ensures !OccursAt(s, h, k) {
      if k + |h| <= |s| {
        var i := k + |h| - 1;
        assert s[k..k + |h|][|h| - 1] == s[i];
        if i < |x| {
          assert s[i] == x[i];
        } else {
          assert s[i] == h[..|h| - 1][i - |x|];
        }
      }
    }
  }

  /** In `a + h + b` with colon-free `a` and `b`, the one colon is the last of `h`. */
  lemma OneColon(a: string, h: string, b: string)
    requires ColonHeading(h) && ':' !in a && ':' !in b
    ensures forall i :: 0 <= i < |a + h + b| && (a + h + b)[i] == ':' ==> i == |a| + |h| - 1
  {
    var s := a + h + b;
    forall i | 0 <= i < |s| ensures s[i] == ':' ==> i == |a| + |h| - 1 {
      if i < |a| {
        assert s[i] == a[i];
      } else if i < |a| + |h| - 1 {
        assert s[i] == h[..|h| - 1][i - |a|];
      } else if i >= |a| + |h| {
        assert s[i] == b[i - |a| - |h|];
      }
    }
  }

  /**
   * The usual layout: a preamble, the inclusion heading, the inclusion text,
   * the exclusion heading and the exclusion text, no other colons. The two
   * sections come back stripped and labelled.
   */
  lemma SectionsOfLayout(pre: string, a: string, b: string)
    requires ':' !in pre && ':' !in a && ':' !in b
    ensures SplitSections(pre + InclusionHeading + (a + ExclusionHeading + b))
      == ("inclusion criteria: " + Strip(a), ": " + Strip(b))
  {
    assert ColonHeading(InclusionHeading);
    assert ColonHeading(ExclusionHeading);
    var rest := a + ExclusionHeading + b;
    var ec := pre + InclusionHeading + rest;
    assert ec[|pre|..|pre| + 19] == InclusionHeading;
    OccursInContains(ec, InclusionHeading, |pre|);
    HeadingFirst(pre, InclusionHeading, rest);
    SplitFirst(pre, InclusionHeading, rest);
    OneColon(a, ExclusionHeading, b);
    forall k ensures !OccursAt(rest, InclusionHeading, k) {
      if 0 <= k && k + 19 <= |rest| {
        assert rest[k..k + 19][18] == rest[k + 18];
        assert rest[k..k + 19][0] == rest[k];
        assert rest[|a|] == 'E';
      }
    }
    SplitAbsent(rest, InclusionHeading);
    assert Split(ec, InclusionHeading) == [pre, rest];
    HeadingFirst(a, ExclusionHeading, b);
    SplitFirst(a, ExclusionHeading, b);
    NoColonNoHeading(b, ExclusionHeading);
    SplitAbsent(b, ExclusionHeading);
    assert Split(rest, ExclusionHeading) == [a, b];
  }

  // ---------------------------------------------------------------------------
  // The numbered-item rewrite: re.sub(r'\s*\d+\.\s*', '\n\n ', s)
  // ---------------------------------------------------------------------------

  /**
   * Where a match starting at `p` ends: whitespace, at least one digit, a
   * dot, whitespace. Backtracking cannot help: giving back whitespace or
   * digits leaves a character that is not a digit or not a dot.
   */
  function NumberedItemEnd(s: string, p: nat): (r: Option<nat>)
    requires p <= |s|
    ensures r.Some? ==> p < r.value <= |s|
  {
    var q := SpaceRunEnd(s, p);
    var d := DigitRunEnd(s, q);
    if q < d < |s| && s[d] == '.' then Some(SpaceRunEnd(s, d + 1)) else None
  }

  /** The rewrite of `s[p..]`: scanning left to right, each match replaced, other characters kept. */
  function RewriteFrom(s: string, p: nat): string
    requires p <= |s|
    decreases |s| - p
  {
    if p == |s| then ""
    else
      match NumberedItemEnd(s, p)
      case Some(t) => "\n\n " + RewriteFrom(s, t)
      case None => [s[p]] + RewriteFrom(s, p + 1)
  }

  /** The numbered-item rewrite of the whole text: no digit followed by a dot is left, and a text without dots is kept. */
  function RewriteNumbered(s: string): (r: string)
    ensures NoDigitDot(r)
    ensures (forall k :: 0 <= k < |s| ==> s[k] != '.') ==> r == s
  {
    NoNumberLeft(s, 0);
    if forall k :: 0 <= k < |s| ==> s[k] != '.' then
      NoDotUnchanged(s, 0);
      RewriteFrom(s, 0)
    else RewriteFrom(s, 0)
  }

  /** A text without dots has no numbered items and is kept as it is. */
  lemma {:induction false} NoDotUnchanged(s: string, p: nat)
    requires p <= |s|
    requires forall k :: p <= k < |s| ==> s[k] != '.'
    decreases |s| - p
    ensures RewriteFrom(s, p) == s[p..]
  {
    if p < |s| {
      NoDotUnchanged(s, p + 1);
      assert s[p..] == [s[p]] + s[p + 1..];
    }
  }

  /** No digit is directly followed by a dot: no numbered item is left. */
  predicate NoDigitDot(r: string)
  {
    forall k :: 0 <= k < |r| - 1 ==> !(IsDigit(r[k]) && r[k + 1] == '.')
  }

  /**
   * After the rewrite no digit is followed by a dot: every numbered item
   * has been replaced. A rewritten text starts with a dot only where the
   * original does.
   */
  lemma {:induction false} NoNumberLeft(s: string, p: nat)
    requires p <= |s|
    decreases |s| - p
    ensures NoDigitDot(RewriteFrom(s, p))
    ensures RewriteFrom(s, p) != [] && RewriteFrom(s, p)[0] == '.' ==> p < |s| && s[p] == '.'
  {
    if p < |s| {
      match NumberedItemEnd(s, p)
      case Some(t) =>
        NoNumberLeft(s, t);
        var tail := RewriteFrom(s, t);
        var r := "\n\n " + tail;
        assert NoDigitDot(tail);
        forall k | 0 <= k < |r| - 1 ensures !(IsDigit(r[k]) && r[k + 1] == '.') {
          if k >= 3 {
            assert r[k] == tail[k - 3] && r[k + 1] == tail[k - 2];
          } else if k == 2 {
            assert r[2] == ' ';
          } else {
            assert r[k] == '\n';
          }
        }
      case None =>
        NoNumberLeft(s, p + 1);
        var tail := RewriteFrom(s, p + 1);
        var r := [s[p]] + tail;
        DigitDotMatches(s, p);
        assert NoDigitDot(tail);
        forall k | 0 <= k < |r| - 1 ensures !(IsDigit(r[k]) && r[k + 1] == '.') {
          if k >= 1 {
            assert r[k] == tail[k - 1] && r[k + 1] == tail[k];
          } else {
            assert r[0] == s[p] && r[1] == tail[0];
            assert tail[0] == '.' ==> s[p + 1] == '.';
          }
        }
    }
  }

  /** A digit followed by a dot starts a match. */
  lemma DigitDotMatches(s: string, p: nat)
    requires p <= |s|
    ensures p + 1 < |s| && IsDigit(s[p]) && s[p + 1] == '.' ==> NumberedItemEnd(s, p).Some?
  {
    if p + 1 < |s| && IsDigit(s[p]) && s[p + 1] == '.' {
      assert SpaceRunEnd(s, p) == p;
      assert DigitRunEnd(s, p + 1) == p + 1;
      assert DigitRunEnd(s, p) == p + 1;
    }
  }

  /** Non-empty inclusion text is rewritten, with no numbered item left, and gets a trailing break. */
  function FormatInclusion(inclusion: string): (r: string)
    ensures inclusion == "" <==> r == ""
    ensures inclusion != "" ==> IsSuffix(" \n\n ", r) && NoDigitDot(r[..|r| - 4])
  {
    if inclusion == "" then inclusion
    else
      var body := RewriteNumbered(inclusion);
      assert (body + " \n\n ")[..|body|] == body;
      body + " \n\n "
  }

  function FormatExclusion(exclusion: string): string
  {
    if exclusion == "" then exclusion else RewriteNumbered(exclusion)
  }

  /** `replace('\\>', '>')`. */
  function Unescape(s: string): (r: string)
    ensures !Contains(s, "\\>") ==> r == s
    ensures |r| + |Split(s, "\\>")| - 1 == |s|
  {
    ReplaceLength(s, "\\>", ">");
    Replace(s, "\\>", ">")
  }

  // ---------------------------------------------------------------------------
  // Drugs and phases
  // ---------------------------------------------------------------------------

  predicate IsDrug(x: InterventionEntry) { x.interventionType == Some("DRUG") }

  /** The names of the interventions whose type is exactly "DRUG", in order. */
  function DrugNames(xs: seq<InterventionEntry>): (r: seq<string>)
    ensures |r| <= |xs|
    ensures (forall k :: 0 <= k < |xs| ==> !IsDrug(xs[k])) ==> r == []
  {
    if xs == [] then []
    else
      var init := DrugNames(xs[..|xs| - 1]);
      var last := xs[|xs| - 1];
      if IsDrug(last) then init + [last.name.GetOr("")] else init
  }

  /** A name is listed exactly when some drug intervention carries it (a missing name as ""). */
  lemma {:induction false} DrugNamesMembers(xs: seq<InterventionEntry>, n: string)
    ensures n in DrugNames(xs) <==> exists k :: 0 <= k < |xs| && IsDrug(xs[k]) && xs[k].name.GetOr("") == n
  {
    if xs != [] {
      var init := xs[..|xs| - 1];
      DrugNamesMembers(init, n);
      if exists k :: 0 <= k < |xs| && IsDrug(xs[k]) && xs[k].name.GetOr("") == n {
        var k :| 0 <= k < |xs| && IsDrug(xs[k]) && xs[k].name.GetOr("") == n;
        if k < |init| {
          assert init[k] == xs[k];
        }
      }
      if exists k :: 0 <= k < |init| && IsDrug(init[k]) && init[k].name.GetOr("") == n {
        var k :| 0 <= k < |init| && IsDrug(init[k]) && init[k].name.GetOr("") == n;
        assert xs[k] == init[k];
      }
    }
  }

  /** The intervention loop: a missing list gives no drugs. */
  method CollectDrugs(interventions: Option<seq<InterventionEntry>>) returns (drugs: seq<string>)
    ensures drugs == DrugNames(interventions.GetOr([]))
  {
    drugs := [];
    if interventions.Some? {
      var xs := interventions.value;
      for i := 0 to |xs|
        invariant drugs == DrugNames(xs[..i])
      {
        assert xs[..i + 1][..i] == xs[..i];
        if xs[i].interventionType == Some("DRUG") {
          drugs := drugs + [xs[i].name.GetOr("")];
        }
      }
      assert xs[..|xs|] == xs;
    }
  }

  /** The phases joined with ", " and "PHASE" spelled "Phase "; "" for none. */
  function PhaseOf(phases: Option<seq<string>>): (r: string)
    ensures phases.None? || phases == Some([]) ==> r == ""
  {
    if phases.Some? && phases.value != [] then Replace(Join(phases.value, ", "), "PHASE", "Phase ") else ""
  }

  lemma NoPNoPhase(d: string)
    requires 'P' !in d
    ensures forall k :: !OccursAt(d, "PHASE", k)
  {
    forall k ensures !OccursAt(d, "PHASE", k) {
      if 0 <= k && k + 5 <= |d| {
        assert d[k..k + 5][0] == d[k];
      }
    }
  }

  /** "PHASE2" reads "Phase 2". */
  lemma OnePhase(d: string)
    requires 'P' !in d
    ensures PhaseOf(Some(["PHASE" + d])) == "Phase " + d
  {
    SplitFirst("", "PHASE", d);
    assert "" + "PHASE" + d == "PHASE" + d;
    NoPNoPhase(d);
    SplitAbsent(d, "PHASE");
    assert Split("PHASE" + d, "PHASE") == ["", d];
    assert Join(["", d], "Phase ") == "" + "Phase " + d;
  }

  /** A leading separator splits off an empty first piece. */
  lemma SplitLeadingSeparator(sep: string, t: string)
    requires |sep| > 0
    ensures Split(sep + t, sep) == [[]] + Split(t, sep)
  {
    var e: string := [];
    assert sep + t == e + sep + t;
    SplitFirst(e, sep, t);
  }

  /** Splitting on a separator that occurs exactly twice, with nothing before the first. */
  lemma SplitTwoSeparated(a: string, b: string, sep: string)
    requires |sep| > 0 && sep[0] !in a && sep[0] !in b
    ensures Split(sep + (a + sep + b), sep) == [[], a, b]
  {
    SplitLeadingSeparator(sep, a + sep + b);
    SplitOnce(a, sep, b);
  }

  /** Replacing a separator that occurs exactly twice, with nothing before the first. */
  lemma ReplaceTwoSeparated(a: string, b: string, sep: string, rep: string)
    requires |sep| > 0 && sep[0] !in a && sep[0] !in b
    ensures Replace(sep + (a + sep + b), sep, rep) == rep + (a + rep + b)
  {
    SplitTwoSeparated(a, b, sep);
    var pieces: seq<string> := [[], a, b];
    assert pieces[1..] == [a, b];
    assert Join([a, b], rep) == a + rep + b;
    assert Join(pieces, rep) == [] + rep + (a + rep + b);
  }

  /** Concatenation regrouped, with the literals kept out of sight. */
  lemma Regroup(p: string, a: string, c: string, b: string)
    ensures p + a + c + p + b == p + ((a + c) + p + b)
    ensures (p + a) + c + (p + b) == p + ((a + c) + p + b)
  {
  }

  /** "PHASE1", "PHASE2" read "Phase 1, Phase 2". */
  lemma TwoPhases(d1: string, d2: string)
    requires 'P' !in d1 && 'P' !in d2
    ensures PhaseOf(Some(["PHASE" + d1, "PHASE" + d2])) == "Phase " + d1 + ", " + "Phase " + d2
  {
    var mid := d1 + ", ";
    Regroup("PHASE", d1, ", ", d2);
    assert Join(["PHASE" + d1, "PHASE" + d2], ", ") == "PHASE" + (mid + "PHASE" + d2);
    ReplaceTwoSeparated(mid, d2, "PHASE", "Phase ");
    Regroup("Phase ", d1, ", ", d2);
  }

  // ---------------------------------------------------------------------------
  // The converted record
  // ---------------------------------------------------------------------------

  /** The `text` field. */
  function TextContent(summary: string, inclusion: string, exclusion: string): string
  {
    "Summary: " + summary + "\nInclusion criteria: " + inclusion + "\nExclusion criteria: " + exclusion
  }

  /** `convert_from_clinicaltrials_format`, reassigning the criteria text step by step. */
  method ConvertStudy(study: Study) returns (r: Simplified)
    ensures var sections := SplitSections(KnownFixes(study.eligibilityCriteria.GetOr("")));
      r.metadata.inclusionCriteria == Unescape(FormatInclusion(sections.0)) &&
      r.metadata.exclusionCriteria == Unescape(FormatExclusion(sections.1))
    ensures r.text == TextContent(study.briefSummary.GetOr(""), r.metadata.inclusionCriteria, r.metadata.exclusionCriteria)
    ensures r.id == study.nctId.GetOr("")
    ensures r.title == study.briefTitle.GetOr("") && r.metadata.briefTitle == r.title
    ensures r.metadata.drugsList == DrugNames(study.interventions.GetOr([]))
    ensures r.metadata.diseasesList == study.conditions.GetOr([])
    ensures r.metadata.drugs == ListRepr(r.metadata.drugsList) && r.metadata.diseases == ListRepr(r.metadata.diseasesList)
    ensures r.metadata.phase == PhaseOf(study.phases)
    ensures r.metadata.briefSummary == study.briefSummary.GetOr("")
  {
    var criteria := study.eligibilityCriteria.GetOr("");
    criteria := KnownFixes(criteria);
    var inclusion := "";
    var exclusion := "";
    if Contains(criteria, InclusionHeading) {
      var sections := SplitSections(criteria);
      inclusion, exclusion := sections.0, sections.1;
    }
    if inclusion != "" {
      inclusion := RewriteNumbered(inclusion);
      inclusion := inclusion + " \n\n ";
    }
    if exclusion != "" {
      exclusion := RewriteNumbered(exclusion);
    }
    inclusion := Unescape(inclusion);
    exclusion := Unescape(exclusion);
    var drugs := CollectDrugs(study.interventions);
    var summary := study.briefSummary.GetOr("");
    var text := TextContent(summary, inclusion, exclusion);
    var title := study.briefTitle.GetOr("");
    r := Simplified(study.nctId.GetOr(""), title, text,
      Metadata(title, "", ListRepr(drugs), drugs, ListRepr(study.conditions.GetOr([])), study.conditions.GetOr([]),
        inclusion, exclusion, summary));
    if study.phases.Some? && study.phases.value != [] {
      r := r.(metadata := r.metadata.(phase := PhaseOf(study.phases)));
    }
  }

  // ---------------------------------------------------------------------------
  // The recovery split of a file that is not valid JSON
  // ---------------------------------------------------------------------------

  /** Strip, then drop a leading '[', a trailing ',' and a trailing ']', in that order. */
  function TrimArray(content: string): (r: string)
    ensures |r| <= |content|
  {
    var c1 := Strip(content);
    var c2 := if |c1| > 0 && c1[0] == '[' then c1[1..] else c1;
    var c3 := if |c2| > 0 && c2[|c2| - 1] == ',' then c2[..|c2| - 1] else c2;
    if |c3| > 0 && c3[|c3| - 1] == ']' then c3[..|c3| - 1] else c3
  }

  /** An object text: '{' first and '}' last. */
  predicate Braced(s: string) { |s| >= 2 && s[0] == '{' && s[|s| - 1] == '}' }

  /** A piece gets the '{' and '}' it is missing. */
  function RepairItem(item: string): (r: string)
    ensures Braced(r)
    ensures Braced(item) ==> r == item
  {
    var braced := if |item| > 0 && item[0] == '{' then item else "{" + item;
    if braced[|braced| - 1] == '}' then braced else braced + "}"
  }

  function RepairAll(pieces: seq<string>): (r: seq<string>)
    ensures |r| == |pieces|
    ensures forall k :: 0 <= k < |r| ==> r[k] == RepairItem(pieces[k])
  {
    if pieces == [] then [] else [RepairItem(pieces[0])] + RepairAll(pieces[1..])
  }

  /** The recovered items: split on "}," and repaired. */
  function RecoveredItems(content: string): seq<string>
  {
    RepairAll(Split(TrimArray(content), "},"))
  }

  /** The repair loop: each piece gets its missing braces. */
  method RepairEach(pieces: seq<string>) returns (items: seq<string>)
    ensures items == RepairAll(pieces)
  {
    items := [];
    for i := 0 to |pieces|
      invariant items == RepairAll(pieces[..i])
    {
      RepairAllSnoc(pieces[..i], pieces[i]);
      assert pieces[..i + 1] == pieces[..i] + [pieces[i]];
      items := items + [RepairItem(pieces[i])];
    }
    assert pieces[..|pieces|] == pieces;
  }

  /** Every repaired piece is braced at both ends. */
  lemma RepairAllBraced(pieces: seq<string>)
    ensures forall k :: 0 <= k < |pieces| ==> Braced(RepairAll(pieces)[k])
  {
    forall k | 0 <= k < |pieces| ensures Braced(RepairAll(pieces)[k]) {
      assert RepairAll(pieces)[k] == RepairItem(pieces[k]);
    }
  }

  /** The recovery: trim the array text, split on "}," and repair each piece; each repaired piece is what `json.loads` is given. */
  method RecoverItems(content: string) returns (items: seq<string>)
    ensures items == RecoveredItems(content)
    ensures |items| >= 1
    ensures forall k :: 0 <= k < |items| ==> Braced(items[k])
  {
    var pieces := Split(TrimArray(content), "},");
    items := RepairEach(pieces);
    RepairAllBraced(pieces);
  }

  lemma RepairAllSnoc(pieces: seq<string>, p: string)
    ensures RepairAll(pieces + [p]) == RepairAll(pieces) + [RepairItem(p)]
  {
    var r := RepairAll(pieces + [p]);
    assert forall k :: 0 <= k < |pieces| ==> (pieces + [p])[k] == pieces[k];
  }

  /** An object text the recovery can cut out: braces at both ends, no "}," inside, no "}}" at the end. */
  ghost predicate Recoverable(o: string)
  {
    && Braced(o)
    && (forall k :: !OccursAt(o, "},", k))
    && (|o| >= 3 ==> o[|o| - 2] != '}')
  }

  /** The first object of a comma-joined run is cut off at its closing "},". */
  lemma CutFirst(o: string, rest: string)
    requires Recoverable(o)
    ensures Split(o + "," + rest, "},") == [o[..|o| - 1]] + Split(rest, "},")
  {
    var p := o[..|o| - 1];
    var s := p + "}," + rest;
    assert o == p + "}";
    assert o + "," + rest == s;
    forall k | 0 <= k < |p| ensures !OccursAt(s, "},", k) {
      assert s[k..k + 2] == [s[k], s[k + 1]];
      if k + 1 < |p| {
        assert o[k..k + 2] == s[k..k + 2];
        assert !OccursAt(o, "},", k);
      } else {
        assert s[k + 1] == '}';
        assert "},"[1] == ',';
      }
    }
    SplitFirst(p, "},", rest);
  }

  /** Every object of the list is recoverable, stated one object at a time. */
  ghost predicate AllRecoverable(objs: seq<string>)
  {
    |objs| == 0 || (Recoverable(objs[0]) && AllRecoverable(objs[1..]))
  }

  lemma {:induction false} AllRecoverableOf(objs: seq<string>)
    requires forall k :: 0 <= k < |objs| ==> Recoverable(objs[k])
    ensures AllRecoverable(objs)
  {
    if |objs| > 0 {
      assert Recoverable(objs[0]);
      forall k | 0 <= k < |objs| - 1 ensures Recoverable(objs[1..][k]) {
        assert objs[1..][k] == objs[k + 1];
      }
      AllRecoverableOf(objs[1..]);
    }
  }

  /** The pieces a split at "}," leaves of comma-joined objects: all but the last lose their '}'. */
  function CutPieces(objs: seq<string>): (r: seq<string>)
    ensures |r| == |objs|
  {
    if |objs| <= 1 then objs
    else [objs[0][..if |objs[0]| > 0 then |objs[0]| - 1 else 0]] + CutPieces(objs[1..])
  }

  /** A single recoverable object is one piece, left whole. */
  lemma JoinedObjectsOne(objs: seq<string>)
    requires |objs| == 1 && Recoverable(objs[0])
    ensures Split(Join(objs, ","), "},") == CutPieces(objs)
  {
    assert Join(objs, ",") == objs[0];
    SplitAbsent(objs[0], "},");
  }

  /** The first of several joined objects splits off as its cut piece. */
  lemma JoinedObjectsStep(objs: seq<string>)
    requires |objs| >= 2 && Recoverable(objs[0])
    ensures Split(Join(objs, ","), "},") == [CutPieces(objs)[0]] + Split(Join(objs[1..], ","), "},")
    ensures CutPieces(objs) == [CutPieces(objs)[0]] + CutPieces(objs[1..])
  {
    var o := objs[0];
    var rest := Join(objs[1..], ",");
    assert Join(objs, ",") == o + "," + rest;
    CutFirst(o, rest);
  }

  /** Objects joined by commas split back at each "}," into their cut pieces. */
  lemma {:induction false} SplitJoinedObjects(objs: seq<string>)
    requires |objs| >= 1
    requires AllRecoverable(objs)
    ensures Split(Join(objs, ","), "},") == CutPieces(objs)
  {
    if |objs| == 1 {
      JoinedObjectsOne(objs);
    } else {
      JoinedObjectsStep(objs);
      SplitJoinedObjects(objs[1..]);
    }
  }

  /** Cutting the final '}' off a recoverable object and repairing it gives the object back. */
  lemma RepairCut(o: string)
    requires Recoverable(o)
    ensures RepairItem(o[..|o| - 1]) == o
  {
    var p := o[..|o| - 1];
    assert p[0] == '{';
    assert p + "}" == o;
  }

  /** The brackets of an array are dropped, and nothing else. */
  lemma TrimBrackets(body: string)
    ensures TrimArray("[" + body + "]") == body
  {
    var content := "[" + body + "]";
    assert content[0] == '[' && content[|content| - 1] == ']';
    assert !IsSpace('[') && !IsSpace(']');
    var c1 := Strip(content);
    assert c1 == content;
    var c2 := content[1..];
    assert c2 == body + "]";
    assert c2[|c2| - 1] == ']';
    assert c2[..|c2| - 1] == body;
  }

  /**
   * A file of recoverable objects written as a JSON array, "[o1,o2,...]",
   * is cut back into exactly those objects.
   */
  lemma RecoverArray(objs: seq<string>)
    requires |objs| >= 1
    requires forall k :: 0 <= k < |objs| ==> Recoverable(objs[k])
    ensures RecoveredItems("[" + Join(objs, ",") + "]") == objs
  {
    var body := Join(objs, ",");
    TrimBrackets(body);
    AllRecoverableOf(objs);
    SplitJoinedObjects(objs);
    RepairPieces(objs);
  }

  /** Repairing the cut pieces restores every object. */
  lemma {:induction false} RepairPieces(objs: seq<string>)
    requires |objs| >= 1
    requires AllRecoverable(objs)
    ensures RepairAll(CutPieces(objs)) == objs
  {
    var o := objs[0];
    if |objs| == 1 {
      assert RepairAll([o]) == [RepairItem(o)];
    } else {
      var pieces := CutPieces(objs);
      assert pieces == [o[..|o| - 1]] + CutPieces(objs[1..]);
      assert pieces[0] == o[..|o| - 1] && pieces[1..] == CutPieces(objs[1..]);
      RepairCut(o);
      RepairPieces(objs[1..]);
      assert objs == [o] + objs[1..];
    }
  }
}
