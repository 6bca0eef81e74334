/**
 * The key-clinical-information record: one text per aspect of the patient
 * (demographics, conditions, medications, labs, procedures, notes) plus the
 * semantic search query.
 */
module KeyClinicalInfo {
  import opened Wrappers
  import opened Strings
  import opened PatientRecord
  import opened QuerySynthesis

  datatype KeyInfo = KeyInfo(
    demographicSummary: string,
    conditionSummary: string,
    medicationSummary: string,
    labSummary: string,
    procedureSummary: string,
    clinicalNotesSummary: string,
    semanticSearchQuery: string)

  /** `f"{x}"` of a dictionary value that is a string or `None`. */
  function FieldText(f: Field<string>): string
  {
    match f
    case Present(v) => v
    case _ => "None"
  }

  predicate FieldTruthy(f: Field<string>) { f.Present? && f.value != "" }

  /** `{"M": "Male", "F": "Female"}.get(g, g)`. */
  function GenderName(g: Field<string>): (r: string)
    ensures g == Present("M") ==> r == "Male"
    ensures g == Present("F") ==> r == "Female"
    ensures g.Null? ==> r == "None"
  {
    if g == Present("M") then "Male" else if g == Present("F") then "Female" else FieldText(g)
  }

  /** One item per demographics key that is present, in the order age, gender, race, ethnicity. */
  function DemographicItems(d: Demographics): (r: seq<string>)
    ensures |r| <= 4
    ensures r == [] <==> d.age.None? && !d.gender.InDict() && !d.race.InDict() && !d.ethnicity.InDict()
  {
    (if d.age.Some? then ["Age: " + IntToString(d.age.value)] else [])
    + (if d.gender.InDict() then ["Gender: " + GenderName(d.gender)] else [])
    + (if d.race.InDict() then ["Race: " + FieldText(d.race)] else [])
    + (if d.ethnicity.InDict() then ["Ethnicity: " + FieldText(d.ethnicity)] else [])
  }

  function ConditionItem(c: Condition): string
  {
    c.name.GetOr("")
    + (if Truthy(c.onsetDate) then " (onset: " + c.onsetDate.value + ")" else "")
    + (if FieldTruthy(c.status) then " - " + c.status.value else "")
  }

  function MedicationItem(m: Medication): string
  {
    m.name.GetOr("")
    + (if Truthy(m.dose) && Truthy(m.unit) then " " + m.dose.value + " " + m.unit.value else "")
    + (if Truthy(m.startDate) then " (started: " + m.startDate.value + ")" else "")
  }

  function ProcedureItem(p: Procedure): string
  {
    p.name.GetOr("") + (if Truthy(p.date) then " (" + p.date.value + ")" else "")
  }

  /** A lab's line, before any abnormality marker. */
  function LabItem(l: Lab): string
  {
    l.name.GetOr("") + ": " + l.value.GetOr("") + " " + l.unit.GetOr("")
    + (if Truthy(l.date) then " (" + l.date.value + ")" else "")
  }

  function AbnormalLabItem(l: Lab): string
  {
    LabItem(l) + " [Abnormal: ref range " + l.referenceRange.GetOr("") + " " + l.unit.GetOr("") + "]"
  }

  const NoteLimit: nat := 200

  /** `content[:200] + "..."` when longer than 200 characters, else the content. */
  function Truncated(content: string): (r: string)
    ensures |content| <= NoteLimit ==> r == content
    ensures |content| > NoteLimit ==> |r| == NoteLimit + 3 && r[..NoteLimit] == content[..NoteLimit]
  {
    if |content| > NoteLimit then content[..NoteLimit] + "..." else content
  }

  function NoteItem(n: Note): string
  {
    n.noteType.GetOr("Clinical Note")
    + (if FieldTruthy(n.date) then " (" + n.date.value + ")" else "")
    + ": " + Truncated(n.content.GetOr(""))
  }

  // ---------------------------------------------------------------------------
  // The item loops
  // ---------------------------------------------------------------------------

  /** `[item(x) for x in xs if keep(x)]`, as the source's append loops build it. */
  function Items<T>(xs: seq<T>, keep: T -> bool, item: T -> string): (r: seq<string>)
    ensures |r| <= |xs|
    ensures (forall i :: 0 <= i < |xs| ==> keep(xs[i])) ==> |r| == |xs|
  {
    if xs == [] then []
    else Items(xs[..|xs| - 1], keep, item) + (if keep(xs[|xs| - 1]) then [item(xs[|xs| - 1])] else [])
  }

  method CollectItems<T>(xs: seq<T>, keep: T -> bool, item: T -> string) returns (items: seq<string>)
    ensures items == Items(xs, keep, item)
  {
    items := [];
    for i := 0 to |xs|
      invariant items == Items(xs[..i], keep, item)
    {
      assert xs[..i + 1][..i] == xs[..i];
      if keep(xs[i]) {
        items := items + [item(xs[i])];
      }
    }
    assert xs[..|xs|] == xs;
  }

  predicate Always<T>(x: T) { true }
  predicate HasName(m: Medication) { Truthy(m.name) }

  /** The abnormal lab items, in input order. */
  function AbnormalItems(labs: seq<Lab>): (r: seq<string>)
    ensures |r| == |AbnormalEntries(labs)|
  {
    if labs == [] then []
    else
      var l := labs[|labs| - 1];
      AbnormalItems(labs[..|labs| - 1]) + (if IsAbnormal(l) then [AbnormalLabItem(l)] else [])
  }

  /** The considered labs that are not abnormal (range missing, unreadable, or within bounds). */
  function NormalItems(labs: seq<Lab>): (r: seq<string>)
  {
    if labs == [] then []
    else
      var l := labs[|labs| - 1];
      NormalItems(labs[..|labs| - 1]) + (if LabConsidered(l) && !IsAbnormal(l) then [LabItem(l)] else [])
  }

  function CountConsidered(labs: seq<Lab>): nat
  {
    if labs == [] then 0
    else CountConsidered(labs[..|labs| - 1]) + (if LabConsidered(labs[|labs| - 1]) then 1 else 0)
  }

  /** Every considered lab is classified exactly once, and only considered labs are abnormal. */
  lemma {:induction false} LabsPartitioned(labs: seq<Lab>)
    ensures |AbnormalItems(labs)| + |NormalItems(labs)| == CountConsidered(labs)
  {
    if labs != [] {
      LabsPartitioned(labs[..|labs| - 1]);
    }
  }

  /** The lab loop: every considered lab goes to exactly one of the two lists. */
  method ClassifyLabs(labs: seq<Lab>) returns (abnormal: seq<string>, normal: seq<string>)
    ensures abnormal == AbnormalItems(labs) && normal == NormalItems(labs)
  {
    abnormal, normal := [], [];
    for i := 0 to |labs|
      invariant abnormal == AbnormalItems(labs[..i]) && normal == NormalItems(labs[..i])
    {
      assert labs[..i + 1][..i] == labs[..i];
      var lab := labs[i];
      if LabConsidered(lab) {
        if IsAbnormal(lab) {
          abnormal := abnormal + [AbnormalLabItem(lab)];
        } else {
          normal := normal + [LabItem(lab)];
        }
      }
    }
    assert labs[..|labs|] == labs;
  }

  /** `abnormal + normal[:max(0, 5 - len(abnormal))]`. */
  function LabSummaryItems(abnormal: seq<string>, normal: seq<string>): (r: seq<string>)
    ensures |r| == |abnormal| + (if |abnormal| >= 5 then 0 else if |normal| < 5 - |abnormal| then |normal| else 5 - |abnormal|)
    ensures r[..|abnormal|] == abnormal
    ensures r[|abnormal|..] == normal[..|r| - |abnormal|]
    ensures |abnormal| <= 5 ==> |r| <= 5
  {
    var k := if 5 - |abnormal| > 0 then 5 - |abnormal| else 0;
    abnormal + TakePy(normal, k)
  }

  /** The query and the lab summary agree on how many labs are abnormal. */
  lemma AbnormalAgreement(labs: seq<Lab>)
    ensures |AbnormalItems(labs)| == |AbnormalLabs(labs)|
  {
  }

  // ---------------------------------------------------------------------------
  // Notes
  // ---------------------------------------------------------------------------

  predicate HasContent(n: Note) { Truthy(n.content) }

  function ContentNotes(notes: seq<Note>): (r: seq<Note>)
    ensures forall n :: n in r <==> n in notes && HasContent(n)
  {
    if notes == [] then [] else (if HasContent(notes[0]) then [notes[0]] else []) + ContentNotes(notes[1..])
  }

  /** The three most recent notes with content (dates compared as strings): at most three, each one a note with content. */
  function RecentNotes(notes: seq<Note>): (r: seq<Note>)
    requires Comparable(ContentNotes(notes))
    ensures |r| <= 3
    ensures forall n :: n in r ==> n in notes && HasContent(n)
  {
    var sorted := Sorting.SortDesc(ContentNotes(notes), NoteDateKey, Sorting.StringLess);
    Sorting.SortDescPermutation(ContentNotes(notes), NoteDateKey, Sorting.StringLess);
    assert forall n :: n in TakePy(sorted, 3) ==> n in multiset(sorted);
    TakePy(sorted, 3)
  }

  /** None of the notes left out is newer than a summarised one. */
  lemma RecentNotesAreNewest(notes: seq<Note>)
    requires Comparable(ContentNotes(notes))
    ensures forall n, t :: n in ContentNotes(notes) && n !in RecentNotes(notes) && t in RecentNotes(notes) ==>
      !Strings.LexLess(NoteDateKey(t), NoteDateKey(n))
  {
    var c := ContentNotes(notes);
    Sorting.StringLessStrictTotal();
    var r := RecentNotes(notes);
    Sorting.SortedPrefixTop(c, NoteDateKey, Sorting.StringLess, |r|);
    assert r == Sorting.SortDesc(c, NoteDateKey, Sorting.StringLess)[..|r|];
  }


  // ---------------------------------------------------------------------------
  // The record
  // ---------------------------------------------------------------------------

  predicate KeyInfoPrecondition(p: Patient) {
    QueryPrecondition(p) && Comparable(ContentNotes(p.clinicalNotes))
  }

  /** The record `extract_key_clinical_info` returns: a part with nothing to report keeps its empty summary. */
  function KeyClinicalInfoOf(p: Patient): (r: KeyInfo)
    requires KeyInfoPrecondition(p)
    ensures DemographicItems(p.demographics) == [] ==> r.demographicSummary == ""
    ensures p.conditions == [] ==> r.conditionSummary == ""
    ensures p.medications == [] ==> r.medicationSummary == ""
    ensures p.labs == [] ==> r.labSummary == ""
    ensures p.procedures == [] ==> r.procedureSummary == ""
    ensures p.clinicalNotes == [] ==> r.clinicalNotesSummary == ""
  {
    KeyInfo(
      Join(DemographicItems(p.demographics), "; "),
      Join(Items(SortedConditions(p.conditions), Always, ConditionItem), "; "),
      Join(Items(p.medications, HasName, MedicationItem), "; "),
      Join(LabSummaryItems(AbnormalItems(p.labs), NormalItems(p.labs)), "; "),
      Join(Items(SortedProcedures(p.procedures), Always, ProcedureItem), "; "),
      Join(Items(RecentNotes(p.clinicalNotes), Always, NoteItem), "\n\n"),
      SemanticSearchQuery(p))
  }

  /** A summary field keeps its empty default unless there are items to join. */
  method JoinedOrEmpty(items: seq<string>, sep: string) returns (summary: string)
    ensures summary == Join(items, sep)
    ensures items == [] ==> summary == ""
  {
    summary := "";
    if items != [] {
      summary := Join(items, sep);
    }
  }

  /** `extract_key_clinical_info`: the record filled field by field. */
  method ExtractKeyClinicalInfo(p: Patient) returns (info: KeyInfo)
    requires KeyInfoPrecondition(p)
    ensures info == KeyClinicalInfoOf(p)
    ensures info.semanticSearchQuery == SemanticSearchQuery(p)
  {
    var demoParts := DemographicItems(p.demographics);
    var demographics := JoinedOrEmpty(demoParts, "; ");
    var conditionItems := CollectItems(SortedConditions(p.conditions), Always, ConditionItem);
    var conditions := JoinedOrEmpty(conditionItems, "; ");
    var medicationItems := CollectItems(p.medications, HasName, MedicationItem);
    var medications := JoinedOrEmpty(medicationItems, "; ");
    var abnormal, normal := ClassifyLabs(p.labs);
    var labs := JoinedOrEmpty(LabSummaryItems(abnormal, normal), "; ");
    var procedureItems := CollectItems(SortedProcedures(p.procedures), Always, ProcedureItem);
    var procedures := JoinedOrEmpty(procedureItems, "; ");
    var noteSummaries := CollectItems(RecentNotes(p.clinicalNotes), Always, NoteItem);
    var notes := JoinedOrEmpty(noteSummaries, "\n\n");
    var q := GenerateSemanticSearchQuery(p);
    info := KeyInfo(demographics, conditions, medications, labs, procedures, notes, q);
  }

  /** Every summarised note body is at most 203 characters: 200 kept plus "...". */
  lemma NoteItemBounded(n: Note)
    ensures |Truncated(n.content.GetOr(""))| <= NoteLimit + 3
  {
  }

  /** A `None` gender is reported as "Gender: None"; a missing one is not reported. */
  lemma NoneGenderShown(d: Demographics)
    requires d.age.None? && d.gender.Null? && !d.race.InDict() && !d.ethnicity.InDict()
    ensures Join(DemographicItems(d), "; ") == "Gender: None"
  {
  }
}
