/**
 * The structured demographic filter: the trial table is a sequence of rows,
 * the SQL WHERE clause a list of clauses built step by step, the uncapped
 * COUNT and the capped SELECT two queries over the same clauses.
 */
module StructuredFilter {
  import opened Wrappers
  import opened Strings
  import PatientRecord

  /** A row of the `trials` table joined with its `GROUP_CONCAT` aggregates. */
  datatype TrialRow = TrialRow(
    trialId: string,
    trialTitle: Option<string>,
    minimumAge: Option<int>,
    maximumAge: Option<int>,
    sex: Option<string>,
    acceptsHealthyVolunteers: Option<int>,
    requiresEnglish: Option<int>,
    requiresInternet: Option<int>,
    conditions: Option<string>,
    interventions: Option<string>)

  datatype InterventionRef = InterventionRef(intervention: string)

  /** A returned trial: the row with its aggregates split into lists. */
  datatype MatchedTrial = MatchedTrial(
    trialId: string,
    trialTitle: Option<string>,
    minimumAge: Option<int>,
    maximumAge: Option<int>,
    sex: Option<string>,
    acceptsHealthyVolunteers: Option<int>,
    requiresEnglish: Option<int>,
    requiresInternet: Option<int>,
    conditions: seq<string>,
    interventions: seq<InterventionRef>)

  /** The demographic values the filter reads, as `dict.get` returns them (`None` when missing). */
  datatype FilterDemographics = FilterDemographics(age: Option<int>, gender: Option<string>, sex: Option<string>)

  /** The demographics of a parsed patient record: it never carries a `sex` key. */
  function FromRecord(d: PatientRecord.Demographics): (r: FilterDemographics)
    ensures r.sex.None? && r.age == d.age
  {
    FilterDemographics(d.age, if d.gender.Present? then Some(d.gender.value) else None, None)
  }

  // ---------------------------------------------------------------------------
  // Sex mapping and the WHERE clause
  // ---------------------------------------------------------------------------

  /** `{'M': 'MALE', 'F': 'FEMALE', 'Male': 'MALE', 'Female': 'FEMALE'}.get(g)`. */
  function MapSex(g: Option<string>): (r: Option<string>)
    ensures r == Some("MALE") <==> g == Some("M") || g == Some("Male")
    ensures r == Some("FEMALE") <==> g == Some("F") || g == Some("Female")
    ensures r.None? || r == Some("MALE") || r == Some("FEMALE")
  {
    if g == Some("M") || g == Some("Male") then Some("MALE")
    else if g == Some("F") || g == Some("Female") then Some("FEMALE")
    else None
  }

  datatype Clause =
    | MinimumAgeAtMost(age: int)    // t.minimum_age IS NULL OR t.minimum_age <= ?
    | MaximumAgeAtLeast(age: int)   // t.maximum_age IS NULL OR t.maximum_age >= ?
    | SexIsOrAll(sex: string)       // t.sex = ? OR t.sex = 'ALL'

  /** SQL truth of one clause on a row; a NULL `sex` compares as unknown, so the row fails. */
  predicate ClauseHolds(c: Clause, row: TrialRow)
  {
    match c
    case MinimumAgeAtMost(a) => row.minimumAge.None? || row.minimumAge.value <= a
    case MaximumAgeAtLeast(a) => row.maximumAge.None? || row.maximumAge.value >= a
    case SexIsOrAll(s) => row.sex == Some(s) || row.sex == Some("ALL")
  }

  predicate Satisfies(row: TrialRow, clauses: seq<Clause>)
  {
    forall i :: 0 <= i < |clauses| ==> ClauseHolds(clauses[i], row)
  }

  function WhereClauses(age: Option<int>, mappedSex: Option<string>): seq<Clause>
  {
    (if age.Some? then [MinimumAgeAtMost(age.value), MaximumAgeAtLeast(age.value)] else [])
    + (if mappedSex.Some? && mappedSex.value != "" then [SexIsOrAll(mappedSex.value)] else [])
  }

  /** The query text grown clause by clause, with its parameter list. */
  method BuildWhere(age: Option<int>, mappedSex: Option<string>) returns (clauses: seq<Clause>)
    ensures clauses == WhereClauses(age, mappedSex)
  {
    clauses := [];
    if age.Some? {
      clauses := clauses + [MinimumAgeAtMost(age.value)];
      clauses := clauses + [MaximumAgeAtLeast(age.value)];
    }
    if mappedSex.Some? && mappedSex.value != "" {
      clauses := clauses + [SexIsOrAll(mappedSex.value)];
    }
  }

  /** The WHERE clause in words: the age bounds apply only for a known age, and the sex test only for a mapped sex. */
  predicate Passes(row: TrialRow, age: Option<int>, mappedSex: Option<string>)
  {
    && (age.Some? ==> (row.minimumAge.None? || row.minimumAge.value <= age.value))
    && (age.Some? ==> (row.maximumAge.None? || row.maximumAge.value >= age.value))
    && (mappedSex.Some? ==> (row.sex == mappedSex || row.sex == Some("ALL")))
  }

  lemma WhereClausesMeaning(row: TrialRow, age: Option<int>, g: Option<string>)
    ensures Satisfies(row, WhereClauses(age, MapSex(g))) <==> Passes(row, age, MapSex(g))
  {
    var cs := WhereClauses(age, MapSex(g));
    if age.Some? {
      assert cs[0] == MinimumAgeAtMost(age.value) && cs[1] == MaximumAgeAtLeast(age.value);
    }
    if MapSex(g).Some? {
      assert cs[|cs| - 1] == SexIsOrAll(MapSex(g).value);
    }
  }

  /** An unmapped gender adds no sex condition: only the age bounds filter. */
  lemma UnmappedSexNoFilter(row: TrialRow, age: Option<int>, g: Option<string>)
    requires g != Some("M") && g != Some("Male") && g != Some("F") && g != Some("Female")
    ensures Passes(row, age, MapSex(g)) <==> Passes(row, age, None)
  {
  }

  /** An unknown age adds no age condition. */
  lemma UnknownAgeNoFilter(row: TrialRow, mappedSex: Option<string>)
    ensures Passes(row, None, mappedSex) <==> (mappedSex.Some? ==> (row.sex == mappedSex || row.sex == Some("ALL")))
  {
  }

  // ---------------------------------------------------------------------------
  // Counting and the capped selection
  // ---------------------------------------------------------------------------

  function Matching(rows: seq<TrialRow>, clauses: seq<Clause>): (r: seq<TrialRow>)
    ensures |r| <= |rows|
    ensures forall x :: x in r <==> x in rows && Satisfies(x, clauses)
  {
    if rows == [] then []
    else Matching(rows[..|rows| - 1], clauses) + (if Satisfies(rows[|rows| - 1], clauses) then [rows[|rows| - 1]] else [])
  }

  /** The number of rows `LIMIT limit` leaves out of `n`; SQLite reads a negative limit as no limit. */
  function LimitedCount(n: nat, limit: int): (r: nat)
    ensures r <= n
    ensures limit >= 0 ==> r <= limit
    ensures (limit < 0 || limit >= n) ==> r == n
  {
    if limit < 0 || limit >= n then n else limit
  }

  /**
   * What the capped query may return: some of the matching rows (their order
   * is up to SQLite), exactly as many as the limit lets through.
   */
  predicate SqlLimitResult(fetched: seq<TrialRow>, matching: seq<TrialRow>, limit: int)
  {
    multiset(fetched) <= multiset(matching) && |fetched| == LimitedCount(|matching|, limit)
  }

  // ---------------------------------------------------------------------------
  // Row post-processing
  // ---------------------------------------------------------------------------

  /** A truthy `GROUP_CONCAT` aggregate split on ','; a NULL or empty one is []. */
  function SplitAggregate(agg: Option<string>): (r: seq<string>)
    ensures agg.Some? && agg.value != "" ==> |r| >= 1 && Join(r, ",") == agg.value
    ensures r == [] <==> agg.None? || agg.value == ""
  {
    if agg.Some? && agg.value != "" then
      JoinSplit(agg.value, ",");
      Split(agg.value, ",")
    else []
  }

  function Wrap(pieces: seq<string>): (r: seq<InterventionRef>)
    ensures |r| == |pieces| && forall i :: 0 <= i < |r| ==> r[i].intervention == pieces[i]
  {
    if pieces == [] then [] else [InterventionRef(pieces[0])] + Wrap(pieces[1..])
  }

  function Processed(row: TrialRow): MatchedTrial
  {
    MatchedTrial(row.trialId, row.trialTitle, row.minimumAge, row.maximumAge, row.sex,
      row.acceptsHealthyVolunteers, row.requiresEnglish, row.requiresInternet,
      SplitAggregate(row.conditions), Wrap(SplitAggregate(row.interventions)))
  }

  /** The intervention texts of wrapped references. */
  function Unwrap(w: seq<InterventionRef>): (r: seq<string>)
    ensures |r| == |w|
  {
    if w == [] then [] else [w[0].intervention] + Unwrap(w[1..])
  }

  lemma {:induction false} UnwrapWrap(pieces: seq<string>)
    ensures Unwrap(Wrap(pieces)) == pieces
  {
    if pieces != [] {
      UnwrapWrap(pieces[1..]);
      assert Wrap(pieces)[1..] == Wrap(pieces[1..]);
    }
  }

  /** Splitting loses nothing: the conditions and the wrapped interventions join back to their aggregates. */
  lemma ProcessedRoundTrip(row: TrialRow)
    requires row.conditions.Some? && row.conditions.value != ""
    requires row.interventions.Some? && row.interventions.value != ""
    ensures Join(Processed(row).conditions, ",") == row.conditions.value
    ensures |Processed(row).interventions| >= 1
    ensures Join(Unwrap(Processed(row).interventions), ",") == row.interventions.value
  {
    UnwrapWrap(SplitAggregate(row.interventions));
  }

  /** The row loop: one processed trial per fetched row, in order. */
  method ProcessRows(fetched: seq<TrialRow>) returns (matches: seq<MatchedTrial>)
    ensures |matches| == |fetched|
    ensures forall i :: 0 <= i < |fetched| ==> matches[i] == Processed(fetched[i])
  {
    matches := [];
    for i := 0 to |fetched|
      invariant |matches| == i
      invariant forall j :: 0 <= j < i ==> matches[j] == Processed(fetched[j])
    {
      matches := matches + [Processed(fetched[i])];
    }
  }

  // ---------------------------------------------------------------------------
  // The two variants
  // ---------------------------------------------------------------------------

  /** The trial database file: missing, or present with its rows (`trial_id` is the primary key). */
  datatype Database = Missing | Present(rows: seq<TrialRow>)

  /** The result of a match: the pair `(matches, total)` or, in the patient script, a bare `[]`. */
  datatype MatchOutcome = Pair(matches: seq<MatchedTrial>, total: nat) | BareEmpty

  const DefaultLimitChroma: int := 1000
  const DefaultLimitScript: int := 100

  /** The count query and the capped query over the same clauses, then the row loop. */
  method RunQueries(rows: seq<TrialRow>, age: Option<int>, mappedSex: Option<string>, limit: int, fetched: seq<TrialRow>)
    returns (matches: seq<MatchedTrial>, total: nat)
    requires SqlLimitResult(fetched, Matching(rows, WhereClauses(age, mappedSex)), limit)
    ensures total == |Matching(rows, WhereClauses(age, mappedSex))|
    ensures |matches| == |fetched| && forall i :: 0 <= i < |fetched| ==> matches[i] == Processed(fetched[i])
  {
    var countClauses := BuildWhere(age, mappedSex);
    total := |Matching(rows, countClauses)|;
    var clauses := BuildWhere(age, mappedSex);
    assert clauses == countClauses;
    matches := ProcessRows(fetched);
  }

  /**
   * `match_patient_to_trials` of the semantic pipeline: reads `gender`; a
   * missing database gives `([], 0)`.
   */
  method MatchPatientToTrials(d: FilterDemographics, db: Database, limit: int, fetched: seq<TrialRow>)
    returns (r: MatchOutcome)
    requires db.Present? ==> SqlLimitResult(fetched, Matching(db.rows, WhereClauses(d.age, MapSex(d.gender))), limit)
    ensures db.Missing? ==> r == Pair([], 0)
    ensures db.Present? ==> r.Pair? && r.total == |Matching(db.rows, WhereClauses(d.age, MapSex(d.gender)))|
    ensures db.Present? ==> |r.matches| == |fetched| && forall i :: 0 <= i < |fetched| ==> r.matches[i] == Processed(fetched[i])
  {
    if db.Missing? {
      return Pair([], 0);
    }
    var mappedSex := MapSex(d.gender);
    var matches, total := RunQueries(db.rows, d.age, mappedSex, limit, fetched);
    r := Pair(matches, total);
  }

  /**
   * `match_patient_to_trials` of the patient script: reads `sex`; a missing
   * database gives a bare `[]`.
   */
  method MatchPatientToTrialsBySex(d: FilterDemographics, db: Database, limit: int, fetched: seq<TrialRow>)
    returns (r: MatchOutcome)
    requires db.Present? ==> SqlLimitResult(fetched, Matching(db.rows, WhereClauses(d.age, MapSex(d.sex))), limit)
    ensures db.Missing? ==> r == BareEmpty
    ensures db.Present? ==> r.Pair? && r.total == |Matching(db.rows, WhereClauses(d.age, MapSex(d.sex)))|
    ensures db.Present? ==> |r.matches| == |fetched| && forall i :: 0 <= i < |fetched| ==> r.matches[i] == Processed(fetched[i])
  {
    if db.Missing? {
      return BareEmpty;
    }
    var mappedSex := MapSex(d.sex);
    var matches, total := RunQueries(db.rows, d.age, mappedSex, limit, fetched);
    r := Pair(matches, total);
  }

  // ---------------------------------------------------------------------------
  // Properties of a match
  // ---------------------------------------------------------------------------

  /** Every fetched row passes the filter, and there are at most min(limit, total) of them. */
  lemma FetchedRowsPass(rows: seq<TrialRow>, age: Option<int>, g: Option<string>, limit: int, fetched: seq<TrialRow>)
    requires SqlLimitResult(fetched, Matching(rows, WhereClauses(age, MapSex(g))), limit)
    ensures forall x :: x in fetched ==> x in rows && Passes(x, age, MapSex(g))
    ensures |fetched| <= |Matching(rows, WhereClauses(age, MapSex(g)))|
    ensures limit >= 0 ==> |fetched| <= limit
    ensures (limit < 0 || limit >= |Matching(rows, WhereClauses(age, MapSex(g)))|) ==>
      |fetched| == |Matching(rows, WhereClauses(age, MapSex(g)))|
  {
    var m := Matching(rows, WhereClauses(age, MapSex(g)));
    forall x | x in fetched ensures x in rows && Passes(x, age, MapSex(g)) {
      assert x in multiset(fetched);
      assert x in multiset(m);
      WhereClausesMeaning(x, age, g);
    }
  }

  /** A parsed patient record carries no `sex` key, so the patient script never filters on sex. */
  lemma RecordHasNoSexFilter(pd: PatientRecord.Demographics)
    ensures MapSex(FromRecord(pd).sex).None?
    ensures WhereClauses(pd.age, MapSex(FromRecord(pd).sex)) ==
      (if pd.age.Some? then [MinimumAgeAtMost(pd.age.value), MaximumAgeAtLeast(pd.age.value)] else [])
  {
  }

  // ---------------------------------------------------------------------------
  // parse_and_match_trials
  // ---------------------------------------------------------------------------

  /** What `parse_and_match_trials` ends with. */
  datatype ScriptOutcome =
    | ParseFailed                                   // patient file did not parse: returns None
    | Saved(matches: seq<MatchedTrial>, total: nat) // results unpacked and written out
    | UnpackError                                   // `a, b = []` raises ValueError

  /** Unpacking the match result into two names, as the script writes it. */
  function UnpackAsWritten(r: MatchOutcome): (o: ScriptOutcome)
    ensures o.UnpackError? <==> r.BareEmpty?
    ensures r.Pair? ==> o == Saved(r.matches, r.total)
  {
    match r
    case Pair(m, t) => Saved(m, t)
    case BareEmpty => UnpackError
  }

  /** `parse_and_match_trials` as written: None when parsing fails, else the match result unpacked. */
  function ParseAndMatchAsWritten(parsed: Option<FilterDemographics>, r: MatchOutcome): (o: ScriptOutcome)
    ensures parsed.None? <==> o.ParseFailed?
    ensures parsed.Some? ==> o == UnpackAsWritten(r)
  {
    if parsed.None? then ParseFailed else UnpackAsWritten(r)
  }

  /** With a parsed patient and a missing database the script as written crashes while unpacking. */
  lemma MissingDatabaseCrashesScript(d: FilterDemographics)
    ensures ParseAndMatchAsWritten(Some(d), BareEmpty) == UnpackError
  {
  }

  /** The outcome of a match whose missing-database result is `([], 0)`, as in the semantic pipeline. */
  function MissingAsEmptyPair(r: MatchOutcome): (c: MatchOutcome)
    ensures c.Pair?
    ensures r.Pair? ==> c == r
    ensures r.BareEmpty? ==> c == Pair([], 0)
  {
    if r.BareEmpty? then Pair([], 0) else r
  }

  /** The script with the missing-database result read as `([], 0)`: unpacking never fails. */
  function ParseAndMatch(parsed: Option<FilterDemographics>, r: MatchOutcome): (o: ScriptOutcome)
    ensures parsed.None? <==> o.ParseFailed?
    ensures !o.UnpackError?
    ensures parsed.Some? && r.BareEmpty? ==> o == Saved([], 0)
  {
    if parsed.None? then ParseFailed else UnpackAsWritten(MissingAsEmptyPair(r))
  }
}
