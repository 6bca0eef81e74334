/**
 * Patient records as the C-CDA extractor leaves them. The XML traversal is
 * not modelled: each entry arrives as the dictionary the extractor built
 * from one XML entry, and the model covers what happens to it next (date
 * normalisation, the retention rule, the birth-date arithmetic, the patient
 * id default and the per-patient summary row).
 */
module PatientRecord {
  import opened Wrappers
  import opened Strings

  // ---------------------------------------------------------------------------
  // Entities
  // ---------------------------------------------------------------------------

  /** The demographics dictionary; `age` and `birthDate` come from the birth time. */
  datatype Demographics = Demographics(
    age: Option<int>,
    birthDate: Option<string>,
    gender: Field<string>,
    race: Field<string>,
    ethnicity: Field<string>)

  /** A problem-list entry (`name`, `status`, `onsetDate`). */
  datatype Condition = Condition(name: Option<string>, status: Field<string>, onsetDate: Option<string>)

  /** A medication entry (`name`, `dose`, `unit`, `startDate`). */
  datatype Medication = Medication(name: Option<string>, dose: Option<string>, unit: Option<string>, startDate: Option<string>)

  /** A lab result (`name`, `value`, `unit`, `referenceRange`, `date`). */
  datatype Lab = Lab(name: Option<string>, value: Option<string>, unit: Option<string>, referenceRange: Option<string>, date: Option<string>)

  /** A procedure entry (`name`, `date`). */
  datatype Procedure = Procedure(name: Option<string>, date: Option<string>)

  /** A vital sign (`name`, `value`, `unit`, `date`). */
  datatype Vital = Vital(name: Option<string>, value: Option<string>, unit: Option<string>, date: Option<string>)

  /** A clinical note; its `date` may be stored as `None` (`Null`). */
  datatype Note = Note(noteType: Option<string>, date: Field<string>, content: Option<string>)

  /** One parsed patient file. */
  datatype Patient = Patient(
    patientId: string,
    demographics: Demographics,
    conditions: seq<Condition>,
    medications: seq<Medication>,
    labs: seq<Lab>,
    procedures: seq<Procedure>,
    vitals: seq<Vital>,
    clinicalNotes: seq<Note>)

  /** Python truthiness of an optional string: present and non-empty. */
  predicate Truthy(s: Option<string>) { s.Some? && s.value != "" }

  // ---------------------------------------------------------------------------
  // Dates
  // ---------------------------------------------------------------------------

  /** `YYYYMMDD...` becomes `YYYY-MM-DD` from its first eight characters; shorter strings are kept. */
  function NormalizeDate(d: string): (r: string)
    ensures |d| >= 8 ==> |r| == 10 && r[4] == '-' && r[7] == '-'
    ensures |d| >= 8 ==> r[..4] + r[5..7] + r[8..] == d[..8]
    ensures |d| < 8 ==> r == d
  {
    if |d| >= 8 then
      var r := d[..4] + "-" + d[4..6] + "-" + d[6..8];
      assert r[..4] == d[..4] && r[5..7] == d[4..6] && r[8..] == d[6..8];
      assert d[..8] == d[..4] + d[4..6] + d[6..8];
      r
    else d
  }

  function NormalizeDateOpt(d: Option<string>): (r: Option<string>)
    ensures r.Some? <==> d.Some?
    ensures d.Some? ==> r.value == NormalizeDate(d.value)
  {
    match d
    case None => None
    case Some(v) => Some(NormalizeDate(v))
  }

  /**
   * A note's date: `None` when the section has no effective time, otherwise
   * the low (or the effective time's own) value, normalised.
   */
  function NoteDate(effectiveValue: Option<string>): (r: Field<string>)
    ensures effectiveValue.None? <==> r.Null?
    ensures r.InDict()
    ensures effectiveValue.Some? ==> r == Present(NormalizeDate(effectiveValue.value))
  {
    match effectiveValue
    case None => Null
    case Some(v) => Present(NormalizeDate(v))
  }

  /** The vitals panel date is attached to a vital only when it is non-empty. */
  function VitalDate(panelValue: Option<string>): (r: Option<string>)
    ensures r.Some? <==> Truthy(panelValue)
    ensures r.Some? ==> r.value == NormalizeDate(panelValue.value)
  {
    match panelValue
    case Some(v) => if v != "" then Some(NormalizeDate(v)) else None
    case None => None
  }

  // ---------------------------------------------------------------------------
  // Birth date and age
  // ---------------------------------------------------------------------------

  datatype Date = Date(year: int, month: int, day: int)

  predicate IsLeapYear(y: int) { (y % 4 == 0 && y % 100 != 0) || y % 400 == 0 }

  function DaysInMonth(y: int, m: int): int
    requires 1 <= m <= 12
  {
    if m == 2 then (if IsLeapYear(y) then 29 else 28)
    else if m == 4 || m == 6 || m == 9 || m == 11 then 30
    else 31
  }

  /** The dates `datetime(year, month, day)` accepts. */
  predicate ValidDate(d: Date) {
    1 <= d.year <= 9999 && 1 <= d.month <= 12 && 1 <= d.day <= DaysInMonth(d.year, d.month)
  }

  /** `(a.month, a.day) < (b.month, b.day)` as Python compares tuples. */
  predicate MonthDayBefore(a: Date, b: Date) {
    a.month < b.month || (a.month == b.month && a.day < b.day)
  }

  /** Lexicographic order on (year, month, day). */
  predicate DateLeq(a: Date, b: Date) {
    a.year < b.year || (a.year == b.year && !MonthDayBefore(b, a))
  }

  /** `today.year - birth.year - ((today.month, today.day) < (birth.month, birth.day))`. */
  function Age(birth: Date, today: Date): int
  {
    today.year - birth.year - (if MonthDayBefore(today, birth) then 1 else 0)
  }

  /** The `k`-th anniversary of the birth date, as a (year, month, day) triple. */
  function Anniversary(birth: Date, k: int): Date { Date(birth.year + k, birth.month, birth.day) }

  /** The age is the number of anniversaries reached by `today`, and no other number is. */
  lemma AgeIsCompletedYears(birth: Date, today: Date, k: int)
    ensures k == Age(birth, today) <==>
      DateLeq(Anniversary(birth, k), today) && !DateLeq(Anniversary(birth, k + 1), today)
  {
  }

  /** Nobody born on or before today has a negative age. */
  lemma AgeNonNegative(birth: Date, today: Date)
    requires DateLeq(birth, today)
    ensures Age(birth, today) >= 0
  {
  }

  /** Two-digit zero padding (`:02d`) for a number below 100. */
  function Pad2(n: nat): (r: string)
    requires n < 100
    ensures |r| == 2 && AllDigits(r) && DigitsValue(r) == n
  {
    var r := [DigitChar(n / 10), DigitChar(n % 10)];
    assert r[..1] == [DigitChar(n / 10)] && r[..1][..0] == [];
    assert DigitsValue(r[..1]) == n / 10;
    r
  }

  /** What the birth time contributes to the demographics. */
  datatype BirthFields =
    | NoBirthTime                         // attribute missing or empty: no keys set
    | Parsed(age: int, birthDate: string)  // both `age` and a normalised `birthDate`
    | Unparsed(birthDate: string)          // `int` or `datetime` raised: raw value kept, no age

  /** The three integer slices of a `YYYYMMDD` birth value, when `int` accepts all three. */
  function BirthSlices(b: string): (r: Option<Date>)
  {
    var y := ParseInt(TakePy(b, 4));
    var m := ParseInt(b[if |b| < 4 then |b| else 4..if |b| < 6 then |b| else 6]);
    var d := ParseInt(b[if |b| < 6 then |b| else 6..if |b| < 8 then |b| else 8]);
    if y.Some? && m.Some? && d.Some? then Some(Date(y.value, m.value, d.value)) else None
  }

  /** `f"{year}-{month:02d}-{day:02d}"` for a valid date. */
  function BirthDateText(b: Date): (r: string)
    requires ValidDate(b)
  {
    IntToString(b.year) + "-" + Pad2(b.month) + "-" + Pad2(b.day)
  }

  /** The birth-time branch of the demographics extractor; `today` stands in for the clock. */
  function BirthInfo(birthValue: Option<string>, today: Date): (r: BirthFields)
    ensures !Truthy(birthValue) <==> r.NoBirthTime?
    ensures Truthy(birthValue) ==>
      var s := BirthSlices(birthValue.value);
      if s.Some? && ValidDate(s.value) then r == Parsed(Age(s.value, today), BirthDateText(s.value))
      else r == Unparsed(birthValue.value)
  {
    if !Truthy(birthValue) then NoBirthTime
    else
      var s := BirthSlices(birthValue.value);
      if s.Some? && ValidDate(s.value) then Parsed(Age(s.value, today), BirthDateText(s.value))
      else Unparsed(birthValue.value)
  }

  /** A valid `YYYYMMDD` value parses, and its age is reckoned from that date. */
  lemma BirthInfoDigits(b: string, today: Date)
    requires |b| == 8 && AllDigits(b)
    requires ValidDate(Date(DigitsValue(b[..4]), DigitsValue(b[4..6]), DigitsValue(b[6..8])))
    ensures BirthInfo(Some(b), today) == Parsed(
      Age(Date(DigitsValue(b[..4]), DigitsValue(b[4..6]), DigitsValue(b[6..8])), today),
      BirthDateText(Date(DigitsValue(b[..4]), DigitsValue(b[4..6]), DigitsValue(b[6..8]))))
  {
    assert AllDigits(b[..4]) && AllDigits(b[4..6]) && AllDigits(b[6..8]);
    assert TakePy(b, 4) == b[..4];
  }

  // ---------------------------------------------------------------------------
  // Patient id
  // ---------------------------------------------------------------------------

  /**
   * The patient id: the `extension` attribute of recordTarget/patientRole/id.
   * `idElement` is `None` when any element on that path is missing, and
   * `Some(None)` when the id element has no extension.
   */
  function PatientId(idElement: Option<Option<string>>): (r: string)
    ensures (idElement.Some? && idElement.value.Some?) ==> r == idElement.value.value
    ensures (idElement.None? || idElement.value.None?) ==> r == "unknown"
  {
    match idElement
    case None => "unknown"
    case Some(ext) => ext.GetOr("unknown")
  }

  // ---------------------------------------------------------------------------
  // Retention
  // ---------------------------------------------------------------------------

  /** Each entry normalised, then kept when `keep` holds of the normalised entry, in order. */
  function Retained<T(==,!new)>(raw: seq<T>, normalize: T -> T, keep: T -> bool): (r: seq<T>)
    ensures |r| <= |raw|
    ensures forall i :: 0 <= i < |r| ==> keep(r[i])
    ensures forall x :: x in r <==> exists e :: e in raw && x == normalize(e) && keep(x)
  {
    if raw == [] then []
    else
      var init := Retained(raw[..|raw| - 1], normalize, keep);
      var e := normalize(raw[|raw| - 1]);
      assert forall x :: x in raw <==> x in raw[..|raw| - 1] || x == raw[|raw| - 1] by {
        assert raw == raw[..|raw| - 1] + [raw[|raw| - 1]];
      }
      if keep(e) then init + [e] else init
  }

  /** The extractor loop: builds each entry, normalises its date, appends it when it passes `keep`. */
  method RetainEntries<T(==,!new)>(raw: seq<T>, normalize: T -> T, keep: T -> bool) returns (kept: seq<T>)
    ensures kept == Retained(raw, normalize, keep)
  {
    kept := [];
    var i := 0;
    while i < |raw|
      invariant 0 <= i <= |raw|
      invariant kept == Retained(raw[..i], normalize, keep)
    {
      var e := normalize(raw[i]);
      assert raw[..i + 1][..i] == raw[..i];
      if keep(e) {
        kept := kept + [e];
      }
      i := i + 1;
    }
    assert raw[..|raw|] == raw;
  }

  function NormalizeCondition(c: Condition): Condition { c.(onsetDate := NormalizeDateOpt(c.onsetDate)) }
  function NormalizeMedication(m: Medication): Medication { m.(startDate := NormalizeDateOpt(m.startDate)) }
  function NormalizeLab(l: Lab): Lab { l.(date := NormalizeDateOpt(l.date)) }
  function NormalizeProcedure(p: Procedure): Procedure { p.(date := NormalizeDateOpt(p.date)) }

  predicate KeepCondition(c: Condition) { Truthy(c.name) }
  predicate KeepMedication(m: Medication) { Truthy(m.name) }
  predicate KeepLab(l: Lab) { Truthy(l.name) && l.value.Some? }
  predicate KeepProcedure(p: Procedure) { Truthy(p.name) }
  predicate KeepVital(v: Vital) { Truthy(v.name) && v.value.Some? }
  function Unchanged<T>(x: T): T { x }

  /** Conditions are kept only with a non-empty name, onset dates normalised. */
  method ExtractConditions(raw: seq<Condition>) returns (kept: seq<Condition>)
    ensures kept == Retained(raw, NormalizeCondition, KeepCondition)
    ensures forall i :: 0 <= i < |kept| ==> Truthy(kept[i].name)
    ensures forall c :: c in raw && Truthy(c.name) ==> NormalizeCondition(c) in kept
  {
    kept := RetainEntries(raw, NormalizeCondition, KeepCondition);
  }

  /** Medications are kept only with a non-empty name, start dates normalised. */
  method ExtractMedications(raw: seq<Medication>) returns (kept: seq<Medication>)
    ensures kept == Retained(raw, NormalizeMedication, KeepMedication)
    ensures forall i :: 0 <= i < |kept| ==> Truthy(kept[i].name)
    ensures forall m :: m in raw && Truthy(m.name) ==> NormalizeMedication(m) in kept
  {
    kept := RetainEntries(raw, NormalizeMedication, KeepMedication);
  }

  /** Labs need a non-empty name and a `value` key. */
  method ExtractLabResults(raw: seq<Lab>) returns (kept: seq<Lab>)
    ensures kept == Retained(raw, NormalizeLab, KeepLab)
    ensures forall i :: 0 <= i < |kept| ==> Truthy(kept[i].name) && kept[i].value.Some?
    ensures forall l :: l in raw && Truthy(l.name) && l.value.Some? ==> NormalizeLab(l) in kept
  {
    kept := RetainEntries(raw, NormalizeLab, KeepLab);
  }

  /** Procedures are kept only with a non-empty name, dates normalised. */
  method ExtractProcedures(raw: seq<Procedure>) returns (kept: seq<Procedure>)
    ensures kept == Retained(raw, NormalizeProcedure, KeepProcedure)
    ensures forall i :: 0 <= i < |kept| ==> Truthy(kept[i].name)
    ensures forall p :: p in raw && Truthy(p.name) ==> NormalizeProcedure(p) in kept
  {
    kept := RetainEntries(raw, NormalizeProcedure, KeepProcedure);
  }

  /** Vitals need a non-empty name and a `value` key; their date was attached by `VitalDate`. */
  method ExtractVitals(raw: seq<Vital>) returns (kept: seq<Vital>)
    ensures kept == Retained(raw, Unchanged, KeepVital)
    ensures forall i :: 0 <= i < |kept| ==> Truthy(kept[i].name) && kept[i].value.Some?
    ensures forall v :: v in raw && Truthy(v.name) && v.value.Some? ==> v in kept
  {
    kept := RetainEntries(raw, Unchanged, KeepVital);
  }

  // ---------------------------------------------------------------------------
  // Patient summary rows
  // ---------------------------------------------------------------------------

  /** A summary cell read with `.get(key, "Unknown")`: the default, a value, or `None`. */
  datatype Cell<T> = UnknownCell | ValueCell(value: T) | NoneCell

  function CellOf<T>(f: Field<T>): (r: Cell<T>)
    ensures f.Absent? <==> r.UnknownCell?
    ensures f.Null? <==> r.NoneCell?
    ensures f.Present? ==> r == ValueCell(f.value)
  {
    match f
    case Absent => UnknownCell
    case Null => NoneCell
    case Present(v) => ValueCell(v)
  }

  datatype SummaryRow = SummaryRow(
    patientId: string,
    age: Cell<int>,
    gender: Cell<string>,
    race: Cell<string>,
    ethnicity: Cell<string>,
    conditionsCount: nat,
    medicationsCount: nat,
    labsCount: nat,
    proceduresCount: nat,
    notesCount: Option<nat>,
    conditions: string,
    medications: string)

  /** The `name` field of each kind of entry. */
  function ConditionName(c: Condition): Option<string> { c.name }
  function MedicationName(m: Medication): Option<string> { m.name }
  function ProcedureName(p: Procedure): Option<string> { p.name }

  /** The non-empty values of one text field, in entry order: `[x["name"] for x in xs if x.get("name")]`. */
  function FilledNames<T>(xs: seq<T>, field: T -> Option<string>): (r: seq<string>)
    ensures |r| <= |xs|
    ensures forall i :: 0 <= i < |r| ==> r[i] != ""
    ensures r == [] <==> forall i :: 0 <= i < |xs| ==> !Truthy(field(xs[i]))
  {
    if xs == [] then []
    else (if Truthy(field(xs[0])) then [field(xs[0]).value] else []) + FilledNames(xs[1..], field)
  }

  /** `idx` lists, in increasing order, the entries whose field holds each of `names`. */
  predicate Indexes<T>(xs: seq<T>, field: T -> Option<string>, names: seq<string>, idx: seq<nat>)
  {
    && |idx| == |names|
    && (forall i :: 0 <= i < |idx| ==> idx[i] < |xs| && field(xs[idx[i]]) == Some(names[i]))
    && (forall i, j :: 0 <= i < j < |idx| ==> idx[i] < idx[j])
  }

  function Shift(idx: seq<nat>): (r: seq<nat>)
    ensures |r| == |idx| && forall i :: 0 <= i < |idx| ==> r[i] == idx[i] + 1
  {
    seq(|idx|, i requires 0 <= i < |idx| => idx[i] + 1)
  }

  lemma ShiftIndexes<T>(xs: seq<T>, field: T -> Option<string>, names: seq<string>, idx: seq<nat>)
    requires xs != [] && Indexes(xs[1..], field, names, idx)
    ensures Indexes(xs, field, names, Shift(idx))
  {
    forall i | 0 <= i < |idx| ensures field(xs[Shift(idx)[i]]) == Some(names[i]) {
      assert xs[idx[i] + 1] == xs[1..][idx[i]];
    }
  }

  lemma ConsIndexes<T>(xs: seq<T>, field: T -> Option<string>, names: seq<string>, idx: seq<nat>)
    requires xs != [] && Truthy(field(xs[0])) && Indexes(xs, field, names, idx)
    requires forall i :: 0 <= i < |idx| ==> idx[i] > 0
    ensures Indexes(xs, field, [field(xs[0]).value] + names, [0] + idx)
  {
  }

  /** Every entry with a filled field has its position in `idx`. */
  predicate Covers<T>(xs: seq<T>, field: T -> Option<string>, idx: seq<nat>)
  {
    forall k :: 0 <= k < |xs| && Truthy(field(xs[k])) ==> k in idx
  }

  /** Positions covering the tail, shifted by one, cover `xs` (with position 0 added when its first field is filled). */
  lemma ShiftCovers<T>(xs: seq<T>, field: T -> Option<string>, idx: seq<nat>)
    requires xs != [] && Covers(xs[1..], field, idx)
    ensures !Truthy(field(xs[0])) ==> Covers(xs, field, Shift(idx))
    ensures Truthy(field(xs[0])) ==> Covers(xs, field, [0] + Shift(idx))
  {
    forall k | 1 <= k < |xs| && Truthy(field(xs[k])) ensures k in Shift(idx) {
      assert xs[1..][k - 1] == xs[k];
      var i :| 0 <= i < |idx| && idx[i] == k - 1;
      assert Shift(idx)[i] == k;
    }
  }

  /** The positions of the names of `xs`, when its first field is empty. */
  lemma SkipIndexes<T>(xs: seq<T>, field: T -> Option<string>, rest: seq<nat>)
    requires xs != [] && !Truthy(field(xs[0]))
    requires Indexes(xs[1..], field, FilledNames(xs[1..], field), rest)
    ensures Indexes(xs, field, FilledNames(xs, field), Shift(rest))
  {
    assert FilledNames(xs, field) == FilledNames(xs[1..], field);
    ShiftIndexes(xs, field, FilledNames(xs[1..], field), rest);
  }

  /** The positions of the names of `xs`, when its first field is filled. */
  lemma KeepIndexes<T>(xs: seq<T>, field: T -> Option<string>, rest: seq<nat>)
    requires xs != [] && Truthy(field(xs[0]))
    requires Indexes(xs[1..], field, FilledNames(xs[1..], field), rest)
    ensures Indexes(xs, field, FilledNames(xs, field), [0] + Shift(rest))
  {
    var tail := FilledNames(xs[1..], field);
    ShiftIndexes(xs, field, tail, rest);
    ConsIndexes(xs, field, tail, Shift(rest));
    assert FilledNames(xs, field) == [field(xs[0]).value] + tail;
  }

  /**
   * The names are exactly the filled fields, in entry order: name `i` is the
   * field of entry `idx[i]`, the positions increase, and every entry with a
   * filled field has its position listed.
   */
  lemma {:induction false} FilledNamesInOrder<T>(xs: seq<T>, field: T -> Option<string>) returns (idx: seq<nat>)
    ensures |idx| == |FilledNames(xs, field)|
    ensures forall i :: 0 <= i < |idx| ==> idx[i] < |xs| && field(xs[idx[i]]) == Some(FilledNames(xs, field)[i])
    ensures forall i, j :: 0 <= i < j < |idx| ==> idx[i] < idx[j]
    ensures forall k :: 0 <= k < |xs| && Truthy(field(xs[k])) ==> k in idx
  {
    if xs == [] {
      idx := [];
    } else {
      var rest := FilledNamesInOrder(xs[1..], field);
      assert Indexes(xs[1..], field, FilledNames(xs[1..], field), rest) && Covers(xs[1..], field, rest);
      ShiftCovers(xs, field, rest);
      if Truthy(field(xs[0])) {
        KeepIndexes(xs, field, rest);
        idx := [0] + Shift(rest);
      } else {
        SkipIndexes(xs, field, rest);
        idx := Shift(rest);
      }
      assert Indexes(xs, field, FilledNames(xs, field), idx) && Covers(xs, field, idx);
    }
  }

  /** Joining non-empty names gives the empty string only for no names. */
  lemma {:induction false} JoinNonEmpty(names: seq<string>, sep: string)
    requires forall i :: 0 <= i < |names| ==> names[i] != ""
    ensures Join(names, sep) == [] <==> names == []
  {
    if |names| >= 2 {
      assert |Join(names, sep)| >= |names[0]|;
    }
  }

  /**
   * One summary row per patient. `withNotes` selects the copy of the
   * summariser that also reports `notes_count`.
   */
  function SummaryOf(p: Patient, withNotes: bool): (r: SummaryRow)
    ensures r.patientId == p.patientId
    ensures r.gender == CellOf(p.demographics.gender) && r.race == CellOf(p.demographics.race)
    ensures r.ethnicity == CellOf(p.demographics.ethnicity)
    ensures r.age == (if p.demographics.age.Some? then ValueCell(p.demographics.age.value) else UnknownCell)
    ensures r.conditionsCount == |p.conditions| && r.medicationsCount == |p.medications|
    ensures r.labsCount == |p.labs| && r.proceduresCount == |p.procedures|
    ensures r.notesCount.Some? <==> withNotes
    ensures withNotes ==> r.notesCount.value == |p.clinicalNotes|
    ensures r.conditions == Join(FilledNames(p.conditions, ConditionName), ", ")
    ensures r.medications == Join(FilledNames(p.medications, MedicationName), ", ")
  {
    SummaryRow(
      p.patientId,
      match p.demographics.age case Some(a) => ValueCell(a) case None => UnknownCell,
      CellOf(p.demographics.gender),
      CellOf(p.demographics.race),
      CellOf(p.demographics.ethnicity),
      |p.conditions|, |p.medications|, |p.labs|, |p.procedures|,
      if withNotes then Some(|p.clinicalNotes|) else None,
      Join(FilledNames(p.conditions, ConditionName), ", "),
      Join(FilledNames(p.medications, MedicationName), ", "))
  }

  /** The conditions cell is empty exactly when no condition has a non-empty name. */
  lemma SummaryConditionsEmpty(p: Patient, withNotes: bool)
    ensures SummaryOf(p, withNotes).conditions == [] <==>
      forall i :: 0 <= i < |p.conditions| ==> !Truthy(p.conditions[i].name)
  {
    JoinNonEmpty(FilledNames(p.conditions, ConditionName), ", ");
  }

  /** The medications cell is empty exactly when no medication has a non-empty name. */
  lemma SummaryMedicationsEmpty(p: Patient, withNotes: bool)
    ensures SummaryOf(p, withNotes).medications == [] <==>
      forall i :: 0 <= i < |p.medications| ==> !Truthy(p.medications[i].name)
  {
    JoinNonEmpty(FilledNames(p.medications, MedicationName), ", ");
  }

  /** The summary loop: one row per patient, in order. */
  method CreatePatientSummary(patients: seq<Patient>, withNotes: bool) returns (rows: seq<SummaryRow>)
    ensures |rows| == |patients|
    ensures forall i :: 0 <= i < |rows| ==> rows[i] == SummaryOf(patients[i], withNotes)
  {
    rows := [];
    for i := 0 to |patients|
      invariant |rows| == i
      invariant forall j :: 0 <= j < i ==> rows[j] == SummaryOf(patients[j], withNotes)
    {
      rows := rows + [SummaryOf(patients[i], withNotes)];
    }
  }
}
