/**
 * The natural-language search query built from a patient record: a
 * demographic phrase, the three most recent conditions, the first
 * medications, one or two abnormal labs, the two most recent procedures and
 * up to two key sentences of the latest assessment/plan note, joined with
 * single spaces, or a fixed fallback sentence when nothing applies.
 */
module QuerySynthesis {
  import opened Wrappers
  import opened Strings
  import Sorting
  import opened PatientRecord

  const Fallback: string := "patient requires clinical trial matching"

  // ---------------------------------------------------------------------------
  // Demographics
  // ---------------------------------------------------------------------------

  predicate AgeTruthy(d: Demographics) { d.age.Some? && d.age.value != 0 }

  predicate GenderTruthy(d: Demographics) { d.gender.Present? && d.gender.value != "" }

  /** The demographic phrase, by the truthiness of age and gender. */
  function DemographicParts(d: Demographics): (r: seq<string>)
    ensures |r| <= 1
    ensures AgeTruthy(d) && d.gender == Present("M") ==> r == [IntToString(d.age.value) + "-year-old male patient"]
    ensures AgeTruthy(d) && d.gender == Present("F") ==> r == [IntToString(d.age.value) + "-year-old female patient"]
    ensures AgeTruthy(d) && d.gender != Present("M") && d.gender != Present("F") ==> r == [IntToString(d.age.value) + "-year-old patient"]
    ensures !AgeTruthy(d) && d.gender == Present("M") ==> r == ["Male patient"]
    ensures !AgeTruthy(d) && d.gender == Present("F") ==> r == ["Female patient"]
    ensures !AgeTruthy(d) && d.gender != Present("M") && d.gender != Present("F") ==> r == []
  {
    if AgeTruthy(d) && GenderTruthy(d) then
      var a := IntToString(d.age.value);
      if d.gender.value == "M" then [a + "-year-old male patient"]
      else if d.gender.value == "F" then [a + "-year-old female patient"]
      else [a + "-year-old patient"]
    else if AgeTruthy(d) then [IntToString(d.age.value) + "-year-old patient"]
    else if GenderTruthy(d) then
      if d.gender.value == "M" then ["Male patient"]
      else if d.gender.value == "F" then ["Female patient"]
      else []
    else []
  }

  // ---------------------------------------------------------------------------
  // Conditions, medications and procedures
  // ---------------------------------------------------------------------------

  function ConditionDateKey(c: Condition): string { c.onsetDate.GetOr("") }

  function ProcedureDateKey(p: Procedure): string { p.date.GetOr("") }

  function NamedConditions(cs: seq<Condition>): (r: seq<Condition>)
    ensures forall c :: c in r <==> c in cs && Truthy(c.name)
  {
    if cs == [] then [] else (if Truthy(cs[0].name) then [cs[0]] else []) + NamedConditions(cs[1..])
  }

  function NamedProcedures(ps: seq<Procedure>): (r: seq<Procedure>)
    ensures forall p :: p in r <==> p in ps && Truthy(p.name)
  {
    if ps == [] then [] else (if Truthy(ps[0].name) then [ps[0]] else []) + NamedProcedures(ps[1..])
  }

  /** The named conditions, latest onset first (missing onset sorts as ""), ties in input order. */
  function SortedConditions(cs: seq<Condition>): seq<Condition>
  {
    Sorting.SortDesc(NamedConditions(cs), ConditionDateKey, Sorting.StringLess)
  }

  function SortedProcedures(ps: seq<Procedure>): seq<Procedure>
  {
    Sorting.SortDesc(NamedProcedures(ps), ProcedureDateKey, Sorting.StringLess)
  }

  /** The `name` of each entry of an already filtered list (`[c["name"] for c in xs]`). */
  function NamesOf<T>(xs: seq<T>, field: T -> Option<string>): (r: seq<string>)
    ensures |r| == |xs|
    ensures forall i :: 0 <= i < |xs| ==> r[i] == field(xs[i]).GetOr("")
  {
    if xs == [] then [] else [field(xs[0]).GetOr("")] + NamesOf(xs[1..], field)
  }

  /** The conditions that the query names: the first three of the sorted list. */
  function RecentConditions(cs: seq<Condition>): seq<Condition>
  {
    TakePy(SortedConditions(cs), 3)
  }

  function RecentProcedures(ps: seq<Procedure>): seq<Procedure>
  {
    TakePy(SortedProcedures(ps), 2)
  }

  /**
   * "diagnosed with X" for one condition, "diagnosed with A, B and C" for
   * more, and no phrase when no condition is named.
   */
  function ConditionParts(cs: seq<Condition>): (r: seq<string>)
    ensures |r| <= 1
    ensures var names := NamesOf(RecentConditions(cs), ConditionName);
      && (names == [] ==> r == [])
      && (|names| == 1 ==> r == ["diagnosed with " + names[0]])
      && (|names| >= 2 ==> r == ["diagnosed with " + Join(names[..|names| - 1], ", ") + " and " + names[|names| - 1]])
  {
    var names := NamesOf(RecentConditions(cs), ConditionName);
    if names == [] then []
    else if |names| == 1 then ["diagnosed with " + JoinAnd(names)]
    else LeadJoinAnd("diagnosed with ", names); ["diagnosed with " + JoinAnd(names)]
  }

  /** A conditions phrase appears exactly when some condition has a non-empty name. */
  lemma ConditionPartsPresent(cs: seq<Condition>)
    ensures ConditionParts(cs) != [] <==> exists c :: c in cs && Truthy(c.name)
  {
    var n := NamedConditions(cs);
    assert |SortedConditions(cs)| == |n|;
    if exists c :: c in cs && Truthy(c.name) {
      var c :| c in cs && Truthy(c.name);
      assert c in n;
    }
  }

  /**
   * The three conditions named are three of the most recent: every named
   * condition left out has an onset no later than each one named, and
   * exactly min(3, #named) are named.
   */
  lemma ConditionsMostRecent(cs: seq<Condition>)
    ensures |RecentConditions(cs)| == (if |NamedConditions(cs)| < 3 then |NamedConditions(cs)| else 3)
    ensures forall c :: c in RecentConditions(cs) ==> c in cs && Truthy(c.name)
    ensures forall c, t :: c in NamedConditions(cs) && c !in RecentConditions(cs) && t in RecentConditions(cs) ==>
      !Strings.LexLess(ConditionDateKey(t), ConditionDateKey(c))
  {
    var n := NamedConditions(cs);
    Sorting.StringLessStrictTotal();
    var r := RecentConditions(cs);
    Sorting.SortedPrefixTop(n, ConditionDateKey, Sorting.StringLess, |r|);
    assert r == SortedConditions(cs)[..|r|];
  }


  /** "underwent X" for one procedure, "underwent A and B" for two, and no phrase when none is named. */
  function ProcedureParts(ps: seq<Procedure>): (r: seq<string>)
    ensures |r| <= 1
    ensures var names := NamesOf(RecentProcedures(ps), ProcedureName);
      && |names| <= 2
      && (names == [] ==> r == [])
      && (|names| == 1 ==> r == ["underwent " + names[0]])
      && (|names| == 2 ==> r == ["underwent " + names[0] + " and " + names[1]])
  {
    var names := NamesOf(RecentProcedures(ps), ProcedureName);
    if names == [] then []
    else if |names| == 1 then ["underwent " + Join(names, " and ")]
    else
      assert Join(names, " and ") == names[0] + " and " + names[1];
      ConcatAssoc("underwent ", names[0] + " and ", names[1]);
      ConcatAssoc("underwent ", names[0], " and ");
      ["underwent " + Join(names, " and ")]
  }

  /** The procedures named are the two most recent named ones. */
  lemma ProceduresMostRecent(ps: seq<Procedure>)
    ensures |RecentProcedures(ps)| == (if |NamedProcedures(ps)| < 2 then |NamedProcedures(ps)| else 2)
    ensures forall p :: p in RecentProcedures(ps) ==> p in ps && Truthy(p.name)
    ensures forall p, t :: p in NamedProcedures(ps) && p !in RecentProcedures(ps) && t in RecentProcedures(ps) ==>
      !Strings.LexLess(ProcedureDateKey(t), ProcedureDateKey(p))
  {
    var n := NamedProcedures(ps);
    Sorting.StringLessStrictTotal();
    var r := RecentProcedures(ps);
    Sorting.SortedPrefixTop(n, ProcedureDateKey, Sorting.StringLess, |r|);
    assert r == SortedProcedures(ps)[..|r|];
  }


  /** Names of the first three medications, nameless ones dropped after the slice. */
  function MedicationNamesFirst3(ms: seq<Medication>): (r: seq<string>)
    ensures |r| <= 3
    ensures r == [] <==> forall j :: 0 <= j < |ms| && j < 3 ==> !Truthy(ms[j].name)
  {
    var first := TakePy(ms, 3);
    assert forall j :: 0 <= j < |first| ==> first[j] == ms[j];
    FilledNames(first, MedicationName)
  }

  /**
   * The medication names are exactly the non-empty names among the first
   * three entries, in entry order: name `i` is that of entry `idx[i]`, the
   * positions increase, and every named entry among the first three is listed.
   */
  lemma MedicationsFirst3InOrder(ms: seq<Medication>) returns (idx: seq<nat>)
    ensures |idx| == |MedicationNamesFirst3(ms)|
    ensures forall i :: 0 <= i < |idx| ==> idx[i] < |ms| && idx[i] < 3 && ms[idx[i]].name == Some(MedicationNamesFirst3(ms)[i])
    ensures forall i, j :: 0 <= i < j < |idx| ==> idx[i] < idx[j]
    ensures forall k :: 0 <= k < |ms| && k < 3 && Truthy(ms[k].name) ==> k in idx
  {
    var first := TakePy(ms, 3);
    assert forall j :: 0 <= j < |first| ==> first[j] == ms[j];
    idx := FilledNamesInOrder(first, MedicationName);
  }

  /** The medications named are non-empty names of the first three entries only. */
  lemma MedicationsFromFirst3(ms: seq<Medication>)
    ensures forall x :: x in MedicationNamesFirst3(ms) ==>
      x != "" && exists j :: 0 <= j < |ms| && j < 3 && ms[j].name == Some(x)
  {
    var r := MedicationNamesFirst3(ms);
    var idx := MedicationsFirst3InOrder(ms);
    forall x | x in r ensures exists j :: 0 <= j < |ms| && j < 3 && ms[j].name == Some(x) {
      var i :| 0 <= i < |r| && r[i] == x;
      assert ms[idx[i]].name == Some(x);
    }
  }

  /**
   * "currently taking X" for one medication name, "currently taking A, B and C"
   * for more, and no phrase when none of the first three is named.
   */
  function MedicationParts(ms: seq<Medication>): (r: seq<string>)
    ensures |r| <= 1
    ensures var names := MedicationNamesFirst3(ms);
      && (names == [] ==> r == [])
      && (|names| == 1 ==> r == ["currently taking " + names[0]])
      && (|names| >= 2 ==> r == ["currently taking " + Join(names[..|names| - 1], ", ") + " and " + names[|names| - 1]])
  {
    var names := MedicationNamesFirst3(ms);
    if names == [] then []
    else if |names| == 1 then ["currently taking " + JoinAnd(names)]
    else LeadJoinAnd("currently taking ", names); ["currently taking " + JoinAnd(names)]
  }

  // ---------------------------------------------------------------------------
  // Labs
  // ---------------------------------------------------------------------------

  /** A lab the query and the summary look at: it has both a `name` and a `value` key. */
  predicate LabConsidered(l: Lab) { l.name.Some? && l.value.Some? }

  /** The `low-high` bounds of a reference range: the first two `-`-fields, stripped and read as numbers. */
  function RangeBounds(ref: string): (r: Option<(real, real)>)
    ensures r.Some? ==> Contains(ref, "-")
  {
    if Contains(ref, "-") then
      SplitContains(ref, "-");
      var parts := Split(ref, "-");
      var low := ParseDecimal(Strip(parts[0]));
      var high := ParseDecimal(Strip(parts[1]));
      if low.Some? && high.Some? then Some((low.value, high.value)) else None
    else None
  }

  /**
   * A lab is abnormal when its reference range holds a '-', both bounds and
   * the value read as numbers, and the value lies outside the bounds.
   */
  predicate IsAbnormal(l: Lab) {
    && LabConsidered(l)
    && var ref := l.referenceRange.GetOr("");
    && ref != ""
    && RangeBounds(ref).Some?
    && ParseDecimal(l.value.value).Some?
    && var v := ParseDecimal(l.value.value).value;
    && (v < RangeBounds(ref).value.0 || v > RangeBounds(ref).value.1)
  }

  function LabText(l: Lab): string
  {
    l.name.GetOr("") + " " + l.value.GetOr("") + " " + l.unit.GetOr("")
  }

  /** The abnormal labs, in input order. */
  function AbnormalEntries(labs: seq<Lab>): (r: seq<Lab>)
    ensures |r| <= |labs|
  {
    if labs == [] then []
    else
      var l := labs[|labs| - 1];
      AbnormalEntries(labs[..|labs| - 1]) + (if IsAbnormal(l) then [l] else [])
  }

  /** Exactly the abnormal labs are listed. */
  lemma {:induction false} AbnormalEntriesExact(labs: seq<Lab>)
    ensures forall l :: l in AbnormalEntries(labs) <==> l in labs && IsAbnormal(l)
  {
    if labs != [] {
      var init := labs[..|labs| - 1];
      AbnormalEntriesExact(init);
      assert labs == init + [labs[|labs| - 1]];
    }
  }

  function LabTexts(ls: seq<Lab>): (r: seq<string>)
    ensures |r| == |ls|
    ensures forall i :: 0 <= i < |ls| ==> r[i] == LabText(ls[i])
  {
    if ls == [] then [] else LabTexts(ls[..|ls| - 1]) + [LabText(ls[|ls| - 1])]
  }

  /** The texts the query may quote: one per abnormal lab, in input order. */
  function AbnormalLabs(labs: seq<Lab>): (r: seq<string>)
    ensures |r| == |AbnormalEntries(labs)| <= |labs|
  {
    LabTexts(AbnormalEntries(labs))
  }

  /** Abnormal labs are mentioned only when there are one or two of them. */
  function LabParts(labs: seq<Lab>): (r: seq<string>)
    ensures r != [] <==> 1 <= |AbnormalLabs(labs)| <= 2
    ensures r != [] ==> r == ["with abnormal " + Join(AbnormalLabs(labs), " and ")]
  {
    var a := AbnormalLabs(labs);
    if a != [] && |a| <= 2 then ["with abnormal " + Join(a, " and ")] else []
  }

  /** A lab above a `low-high` range of plain numbers is abnormal. */
  lemma AbnormalAboveRange()
    ensures IsAbnormal(Lab(Some("Potassium"), Some("7"), Some("mmol/L"), Some("3-5"), None))
  {
    var l := Lab(Some("Potassium"), Some("7"), Some("mmol/L"), Some("3-5"), None);
    RangeExample();
    DigitExample('7');
    assert l.value.value == ['7'];
    assert l.referenceRange.GetOr("") == "3-5";
    assert ParseDecimal(l.value.value) == Some(7.0);
  }

  /** A lab inside its range is not abnormal. */
  lemma NormalInsideRange()
    ensures !IsAbnormal(Lab(Some("Potassium"), Some("4"), Some("mmol/L"), Some("3-5"), None))
  {
    RangeExample();
    DigitExample('4');
  }

  /** A value that does not read as a number is skipped, never abnormal. */
  lemma UnreadableValueSkipped()
    ensures !IsAbnormal(Lab(Some("Potassium"), Some("x"), Some("mmol/L"), Some("3-5"), None))
  {
    assert ParseDecimal("x") == None by {
      StripPlain("x");
      assert SplitSign("x").1 == "x";
      assert !Contains("x", ".") by { ContainsChar("x", '.'); }
      SplitSingle("x", ".");
      assert !AllDigits("x") by { assert !IsDigit("x"[0]); }
    }
  }

  lemma SplitRangeExample()
    ensures Contains("3-5", "-") && Split("3-5", "-") == ["3", "5"]
  {
    assert "3-5" == "3" + "-" + "5";
    SplitOnce("3", "-", "5");
    assert OccursAt("3-5", "-", 1);
    OccursInContains("3-5", "-", 1);
  }

  lemma RangeExample()
    ensures RangeBounds("3-5") == Some((3.0, 5.0))
  {
    SplitRangeExample();
    var parts := Split("3-5", "-");
    assert parts[0] == "3" && parts[1] == "5";
    StripPlain("3");
    StripPlain("5");
    DigitExample('3');
    DigitExample('5');
    assert ParseDecimal(Strip(parts[0])) == Some(3.0);
    assert ParseDecimal(Strip(parts[1])) == Some(5.0);
  }

  lemma StripPlain(s: string)
    requires s != [] && !IsSpace(s[0]) && !IsSpace(s[|s| - 1])
    ensures Strip(s) == s
  {
  }

  /** A single digit reads as its value. */
  lemma DigitExample(c: char)
    requires IsDigit(c)
    ensures ParseDecimal([c]) == Some(DigitVal(c) as real)
  {
    var s := [c];
    assert s[..0] == [];
    assert DigitsValue(s) == DigitVal(c);
    StripPlain(s);
    assert SplitSign(s).1 == s;
    assert !Contains(s, ".") by { ContainsChar(s, '.'); }
    SplitSingle(s, ".");
  }

  // ---------------------------------------------------------------------------
  // Clinical notes
  // ---------------------------------------------------------------------------

  const ImportantTerms: seq<string> := ["recommended", "referred", "indicated", "suspected",
    "diagnosed", "assessment", "plan", "follow-up", "risk",
    "monitoring", "considering", "evaluated", "eligible"]

  const SentenceEnds: set<char> := {'.', '!', '?'}

  predicate IsAssessment(n: Note) {
    n.noteType.Some? && (Contains(n.noteType.value, "Assessment") || Contains(n.noteType.value, "Plan"))
  }

  function AssessmentNotes(notes: seq<Note>): (r: seq<Note>)
    ensures forall n :: n in r <==> n in notes && IsAssessment(n)
  {
    if notes == [] then [] else (if IsAssessment(notes[0]) then [notes[0]] else []) + AssessmentNotes(notes[1..])
  }

  /** `note.get("date", "")` as a sort key; a `None` date is never compared (see `Comparable`). */
  function NoteDateKey(n: Note): string
  {
    match n.date
    case Present(v) => v
    case _ => ""
  }

  /**
   * Sorting two or more notes compares their dates, and Python raises when
   * either is `None`; callers must not pass such lists.
   */
  predicate Comparable(notes: seq<Note>) {
    |notes| >= 2 ==> forall i :: 0 <= i < |notes| ==> !notes[i].date.Null?
  }

  /** The assessment/plan note with the latest date, the earliest such note on ties. */
  function LatestAssessment(notes: seq<Note>): (r: Option<Note>)
    requires Comparable(AssessmentNotes(notes))
    ensures r.None? <==> AssessmentNotes(notes) == []
  {
    var a := AssessmentNotes(notes);
    if a == [] then None else Some(Sorting.SortDesc(a, NoteDateKey, Sorting.StringLess)[0])
  }

  /**
   * The latest assessment note is an assessment note, no other one has a
   * later date, and it is the first, in input order, of those with its date.
   */
  lemma LatestAssessmentIsNewest(notes: seq<Note>)
    requires Comparable(AssessmentNotes(notes))
    requires AssessmentNotes(notes) != []
    ensures LatestAssessment(notes).value in notes && IsAssessment(LatestAssessment(notes).value)
    ensures forall n :: n in AssessmentNotes(notes) ==>
      !Strings.LexLess(NoteDateKey(LatestAssessment(notes).value), NoteDateKey(n))
    ensures var f := Sorting.KeyFilter(AssessmentNotes(notes), NoteDateKey, NoteDateKey(LatestAssessment(notes).value));
      f != [] && f[0] == LatestAssessment(notes).value
  {
    var a := AssessmentNotes(notes);
    var s := Sorting.SortDesc(a, NoteDateKey, Sorting.StringLess);
    var latest := s[0];
    Sorting.StringLessStrictTotal();
    Sorting.SortDescSpec(a, NoteDateKey, Sorting.StringLess);
    assert latest in multiset(a);
    forall n | n in a ensures !Strings.LexLess(NoteDateKey(latest), NoteDateKey(n)) {
      assert n in multiset(s);
      var j :| 0 <= j < |s| && s[j] == n;
      if j > 0 {
        assert !Sorting.StringLess(NoteDateKey(s[0]), NoteDateKey(s[j]));
      } else {
        Strings.LexLessIrreflexive(NoteDateKey(n));
      }
    }
    var k := NoteDateKey(latest);
    assert Sorting.KeyFilter(s, NoteDateKey, k) == Sorting.KeyFilter(a, NoteDateKey, k);
    assert Sorting.KeyFilter(s, NoteDateKey, k)[0] == latest;
  }

  /** A sentence worth quoting: non-empty, under 100 characters, naming an important term. */
  predicate Relevant(s: string) {
    s != [] && (exists t :: t in ImportantTerms && Contains(Lower(s), t)) && |s| < 100
  }

  /** The stripped pieces that are relevant, in order. */
  function RelevantSentences(pieces: seq<string>): (r: seq<string>)
    ensures |r| <= |pieces|
  {
    if pieces == [] then []
    else
      var s := Strip(pieces[|pieces| - 1]);
      RelevantSentences(pieces[..|pieces| - 1]) + (if Relevant(s) then [s] else [])
  }

  /** The last piece is kept, stripped, exactly when it is relevant; the others are kept as before. */
  lemma RelevantLastPiece(pieces: seq<string>)
    requires pieces != []
    ensures forall p :: p in pieces <==> p in pieces[..|pieces| - 1] || p == pieces[|pieces| - 1]
    ensures forall x :: x in RelevantSentences(pieces) <==>
      x in RelevantSentences(pieces[..|pieces| - 1]) || (x == Strip(pieces[|pieces| - 1]) && Relevant(x))
  {
    assert pieces == pieces[..|pieces| - 1] + [pieces[|pieces| - 1]];
  }

  /** Exactly the relevant stripped pieces are kept. */
  lemma {:induction false} RelevantSentencesExact(pieces: seq<string>)
    ensures forall i :: 0 <= i < |RelevantSentences(pieces)| ==> Relevant(RelevantSentences(pieces)[i])
    ensures forall x :: x in RelevantSentences(pieces) <==> exists p :: p in pieces && x == Strip(p) && Relevant(x)
  {
    if pieces != [] {
      var init := pieces[..|pieces| - 1];
      RelevantSentencesExact(init);
      RelevantLastPiece(pieces);
    }
  }

  function NotePhrases(sentences: seq<string>): (r: seq<string>)
    ensures |r| == |sentences|
    ensures forall i :: 0 <= i < |r| ==> r[i] == "note: " + sentences[i]
  {
    if sentences == [] then [] else ["note: " + sentences[0]] + NotePhrases(sentences[1..])
  }

  /** The quoted sentences of the latest assessment/plan note, at most two. */
  function NoteSentences(notes: seq<Note>): (r: seq<string>)
    requires Comparable(AssessmentNotes(notes))
    ensures |r| <= 2
    ensures LatestAssessment(notes).None? ==> r == []
  {
    match LatestAssessment(notes)
    case None => []
    case Some(n) => TakePy(RelevantSentences(SplitOnChars(n.content.GetOr(""), SentenceEnds)), 2)
  }

  function NoteParts(notes: seq<Note>): (r: seq<string>)
    requires Comparable(AssessmentNotes(notes))
    ensures |r| <= 2
  {
    NotePhrases(NoteSentences(notes))
  }

  /**
   * Every quoted sentence is relevant and is a whole stripped sentence of the
   * latest assessment note, so it holds no '.', '!' or '?'.
   */
  lemma NoteSentencesFromLatest(notes: seq<Note>)
    requires Comparable(AssessmentNotes(notes))
    requires AssessmentNotes(notes) != []
    ensures forall s :: s in NoteSentences(notes) ==> (Relevant(s) &&
      exists p :: p in SplitOnChars(LatestAssessment(notes).value.content.GetOr(""), SentenceEnds) && s == Strip(p))
  {
    var pieces := SplitOnChars(LatestAssessment(notes).value.content.GetOr(""), SentenceEnds);
    var all := RelevantSentences(pieces);
    RelevantSentencesExact(pieces);
    assert NoteSentences(notes) == all[..|NoteSentences(notes)|];
    forall s | s in NoteSentences(notes) ensures Relevant(s) && exists p :: p in pieces && s == Strip(p) {
      assert s in all;
    }
  }

  // ---------------------------------------------------------------------------
  // The query
  // ---------------------------------------------------------------------------

  predicate QueryPrecondition(p: Patient) { Comparable(AssessmentNotes(p.clinicalNotes)) }

  /** The phrases in their fixed order. */
  function QueryParts(p: Patient): seq<string>
    requires QueryPrecondition(p)
  {
    DemographicParts(p.demographics) + ConditionParts(p.conditions) + MedicationParts(p.medications)
    + LabParts(p.labs) + ProcedureParts(p.procedures) + NoteParts(p.clinicalNotes)
  }

  function SemanticSearchQuery(p: Patient): (q: string)
    requires QueryPrecondition(p)
  {
    var parts := QueryParts(p);
    if parts == [] then Fallback else Join(parts, " ")
  }

  /** A phrase that cannot begin the fallback sentence. */
  predicate StartsApart(s: string) { s != [] && s[0] != 'p' }

  predicate AllStartApart(parts: seq<string>) {
    forall i :: 0 <= i < |parts| ==> StartsApart(parts[i])
  }

  lemma DemographicStartApart(d: Demographics)
    ensures AllStartApart(DemographicParts(d))
  {
    if AgeTruthy(d) {
      var a := IntToString(d.age.value);
      assert a[0] == '-' || IsDigit(a[0]) by {
        if d.age.value >= 0 { assert a == NatToString(d.age.value); }
      }
    }
  }

  lemma NoteStartApart(notes: seq<Note>)
    requires Comparable(AssessmentNotes(notes))
    ensures AllStartApart(NoteParts(notes))
  {
    var r := NoteParts(notes);
    forall i | 0 <= i < |r| ensures StartsApart(r[i]) {
      assert r[i][0] == 'n';
    }
  }

  lemma AllStartApartAppend(a: seq<string>, b: seq<string>)
    requires AllStartApart(a) && AllStartApart(b)
    ensures AllStartApart(a + b)
  {
  }

  /** A phrase made of a fixed lead-in and some text starts with the lead-in's first character. */
  lemma LeadIn(lead: string, text: string)
    requires lead != [] && lead[0] != 'p'
    ensures StartsApart(lead + text)
  {
    assert (lead + text)[0] == lead[0];
  }

  lemma ConditionStartApart(cs: seq<Condition>)
    ensures AllStartApart(ConditionParts(cs))
  {
    var names := NamesOf(RecentConditions(cs), ConditionName);
    if names != [] { LeadIn("diagnosed with ", JoinAnd(names)); }
  }

  lemma MedicationStartApart(ms: seq<Medication>)
    ensures AllStartApart(MedicationParts(ms))
  {
    var names := MedicationNamesFirst3(ms);
    if names != [] { LeadIn("currently taking ", JoinAnd(names)); }
  }

  lemma LabStartApart(labs: seq<Lab>)
    ensures AllStartApart(LabParts(labs))
  {
    var a := AbnormalLabs(labs);
    if a != [] && |a| <= 2 { LeadIn("with abnormal ", Join(a, " and ")); }
  }

  lemma ProcedureStartApart(ps: seq<Procedure>)
    ensures AllStartApart(ProcedureParts(ps))
  {
    var names := NamesOf(RecentProcedures(ps), ProcedureName);
    if names != [] { LeadIn("underwent ", Join(names, " and ")); }
  }

  lemma PartsStartApart(p: Patient)
    requires QueryPrecondition(p)
    ensures AllStartApart(QueryParts(p))
  {
    var a := DemographicParts(p.demographics);
    var b := ConditionParts(p.conditions);
    var c := MedicationParts(p.medications);
    var d := LabParts(p.labs);
    var e := ProcedureParts(p.procedures);
    var f := NoteParts(p.clinicalNotes);
    DemographicStartApart(p.demographics);
    NoteStartApart(p.clinicalNotes);
    ConditionStartApart(p.conditions);
    MedicationStartApart(p.medications);
    LabStartApart(p.labs);
    ProcedureStartApart(p.procedures);
    AllStartApartAppend(a, b);
    AllStartApartAppend(a + b, c);
    AllStartApartAppend(a + b + c, d);
    AllStartApartAppend(a + b + c + d, e);
    AllStartApartAppend(a + b + c + d + e, f);
  }

  lemma {:induction false} JoinHead(parts: seq<string>, sep: string)
    requires parts != [] && parts[0] != []
    ensures Join(parts, sep) != [] && Join(parts, sep)[0] == parts[0][0]
  {
  }

  /**
   * The fallback sentence is produced exactly when no phrase applies; a
   * non-empty query never coincides with it.
   */
  lemma QueryFallbackIff(p: Patient)
    requires QueryPrecondition(p)
    ensures SemanticSearchQuery(p) == Fallback <==> QueryParts(p) == []
  {
    var parts := QueryParts(p);
    if parts != [] {
      PartsStartApart(p);
      assert StartsApart(parts[0]);
      JoinHead(parts, " ");
      assert Join(parts, " ")[0] != Fallback[0];
    }
  }

  /** A patient with no usable data gets the fallback sentence. */
  lemma EmptyPatientFallback(id: string)
    ensures SemanticSearchQuery(Patient(id, Demographics(None, None, Absent, Absent, Absent), [], [], [], [], [], []))
      == Fallback
  {
    var p := Patient(id, Demographics(None, None, Absent, Absent, Absent), [], [], [], [], [], []);
    assert AssessmentNotes([]) == [];
    assert NamedConditions([]) == [] && NamedProcedures([]) == [];
    assert MedicationNamesFirst3([]) == [];
    QueryFallbackIff(p);
  }

  // ---------------------------------------------------------------------------
  // The builder, as the source runs it
  // ---------------------------------------------------------------------------

  /** One more lab is kept exactly when it is abnormal. */
  lemma AbnormalEntriesStep(labs: seq<Lab>, i: nat)
    requires i < |labs|
    ensures AbnormalEntries(labs[..i + 1])
      == AbnormalEntries(labs[..i]) + (if IsAbnormal(labs[i]) then [labs[i]] else [])
  {
    assert labs[..i + 1][..i] == labs[..i];
  }

  lemma LabTextsSnoc(ls: seq<Lab>, l: Lab)
    ensures LabTexts(ls + [l]) == LabTexts(ls) + [LabText(l)]
  {
    assert (ls + [l])[..|ls|] == ls;
  }

  /** One more lab adds its text exactly when it is abnormal. */
  lemma AbnormalLabsStep(labs: seq<Lab>, i: nat)
    requires i < |labs|
    ensures AbnormalLabs(labs[..i + 1])
      == AbnormalLabs(labs[..i]) + (if IsAbnormal(labs[i]) then [LabText(labs[i])] else [])
  {
    AbnormalEntriesStep(labs, i);
    if IsAbnormal(labs[i]) {
      LabTextsSnoc(AbnormalEntries(labs[..i]), labs[i]);
    } else {
      assert AbnormalEntries(labs[..i]) + [] == AbnormalEntries(labs[..i]);
    }
  }

  /** The abnormal-lab loop. */
  method CollectAbnormalLabs(labs: seq<Lab>) returns (abnormal: seq<string>)
    ensures abnormal == AbnormalLabs(labs)
  {
    abnormal := [];
    var i := 0;
    while i < |labs|
      invariant 0 <= i <= |labs|
      invariant abnormal == AbnormalLabs(labs[..i])
    {
      AbnormalLabsStep(labs, i);
      if IsAbnormal(labs[i]) {
        abnormal := abnormal + [LabText(labs[i])];
      }
      i := i + 1;
    }
    assert labs[..|labs|] == labs;
  }

  /** One more piece adds its stripped text when that is relevant. */
  lemma RelevantSentencesSnoc(pieces: seq<string>, i: nat)
    requires i < |pieces|
    ensures RelevantSentences(pieces[..i + 1])
      == RelevantSentences(pieces[..i]) + (if Relevant(Strip(pieces[i])) then [Strip(pieces[i])] else [])
  {
    assert pieces[..i + 1][..i] == pieces[..i];
  }

  /** The sentence loop over the split note content. */
  method CollectRelevantSentences(content: string) returns (relevant: seq<string>)
    ensures relevant == RelevantSentences(SplitOnChars(content, SentenceEnds))
  {
    var pieces := SplitOnChars(content, SentenceEnds);
    relevant := [];
    var i := 0;
    while i < |pieces|
      invariant 0 <= i <= |pieces|
      invariant relevant == RelevantSentences(pieces[..i])
    {
      RelevantSentencesSnoc(pieces, i);
      var sentence := Strip(pieces[i]);
      if Relevant(sentence) {
        relevant := relevant + [sentence];
      }
      i := i + 1;
    }
    assert pieces[..|pieces|] == pieces;
  }

  /** The abnormal-lab phrase, added only for one or two abnormal labs. */
  method AppendLabPhrase(parts: seq<string>, labs: seq<Lab>) returns (out: seq<string>)
    ensures out == parts + LabParts(labs)
  {
    var abnormal := CollectAbnormalLabs(labs);
    out := parts;
    if abnormal != [] && |abnormal| <= 2 {
      out := out + ["with abnormal " + Join(abnormal, " and ")];
    }
  }

  /** The note phrases from the latest assessment or plan note, if there is one. */
  method AppendNoteSentences(parts: seq<string>, notes: seq<Note>) returns (out: seq<string>)
    requires Comparable(AssessmentNotes(notes))
    ensures out == parts + NoteParts(notes)
  {
    var latest := LatestAssessment(notes);
    if latest.Some? {
      var relevant := CollectRelevantSentences(latest.value.content.GetOr(""));
      var kept := TakePy(relevant, 2);
      assert kept == NoteSentences(notes);
      out := AppendNotePhrases(parts, kept);
    } else {
      assert NoteParts(notes) == [];
      out := parts;
    }
  }

  /**
   * The phrase-collecting part of `generate_semantic_search_query`: appends
   * each phrase in order; the abnormal labs and the note sentences are
   * gathered by their loops.
   */
  method CollectQueryParts(p: Patient) returns (queryParts: seq<string>)
    requires QueryPrecondition(p)
    ensures queryParts == QueryParts(p)
  {
    queryParts := DemographicParts(p.demographics);
    queryParts := queryParts + ConditionParts(p.conditions);
    queryParts := queryParts + MedicationParts(p.medications);
    queryParts := AppendLabPhrase(queryParts, p.labs);
    queryParts := queryParts + ProcedureParts(p.procedures);
    queryParts := AppendNoteSentences(queryParts, p.clinicalNotes);
  }

  /** `generate_semantic_search_query`: the phrases joined by spaces, or the fallback sentence. */
  method GenerateSemanticSearchQuery(p: Patient) returns (q: string)
    requires QueryPrecondition(p)
    ensures q == SemanticSearchQuery(p)
    ensures q == Fallback <==> QueryParts(p) == []
  {
    var queryParts := CollectQueryParts(p);
    QueryFallbackIff(p);
    if queryParts != [] {
      q := Join(queryParts, " ");
    } else {
      q := Fallback;
    }
  }

  /** The loop that adds one "note: ..." phrase per kept sentence. */
  method AppendNotePhrases(parts: seq<string>, kept: seq<string>) returns (out: seq<string>)
    ensures out == parts + NotePhrases(kept)
  {
    out := parts;
    for j := 0 to |kept|
      invariant out == parts + NotePhrases(kept[..j])
    {
      assert kept[..j + 1] == kept[..j] + [kept[j]];
      NotePhrasesAppend(kept[..j], kept[j]);
      out := out + ["note: " + kept[j]];
    }
    assert kept[..|kept|] == kept;
  }

  lemma NotePhrasesAppend(xs: seq<string>, x: string)
    ensures NotePhrases(xs + [x]) == NotePhrases(xs) + ["note: " + x]
  {
    var l := NotePhrases(xs + [x]);
    assert |l| == |xs| + 1;
    assert forall i :: 0 <= i < |l| ==> l[i] == (NotePhrases(xs) + ["note: " + x])[i];
  }
}
