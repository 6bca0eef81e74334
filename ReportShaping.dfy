/**
 * The report: the evaluation results are sorted into eligible, ineligible and
 * indeterminate trials, each list ordered by semantic score, and then turned
 * into the rows of the summary, eligible, ineligible and criteria-detail
 * tables. Only the rows' contents are modelled, not the spreadsheets.
 */
module ReportShaping {
  import opened Wrappers
  import opened Strings
  import Sorting
  import EligibilityPrompt

  type ResultRecord = EligibilityPrompt.ResultRecord
  type Assessment = EligibilityPrompt.Assessment
  type EligibilityResults = EligibilityPrompt.EligibilityResults

  // ---------------------------------------------------------------------------
  // The formatted output
  // ---------------------------------------------------------------------------

  /** One entry of a trial's `criteria_summary`. */
  datatype CriterionSummary = CriterionSummary(
    criterion: string,
    isMet: bool,
    confidence: string,
    rationale: string,
    medications: seq<string>)

  /** An entry of `eligible_trials` or `ineligible_trials`. */
  datatype TrialSummary = TrialSummary(
    trialId: string,
    trialTitle: string,
    semanticScore: real,
    criteriaSummary: seq<CriterionSummary>)

  /** An entry of `indeterminate_trials`. */
  datatype IndeterminateEntry = IndeterminateEntry(
    trialId: string,
    trialTitle: string,
    semanticScore: real,
    reason: string)

  datatype FormattedOutput = FormattedOutput(
    patientId: string,
    evaluationDate: string,
    totalTrialsEvaluated: int,
    eligible: seq<TrialSummary>,
    ineligible: seq<TrialSummary>,
    indeterminate: seq<IndeterminateEntry>)

  datatype Bucket = Eligible | Ineligible | Indeterminate

  /** `all(criterion.get('is_met', False) for criterion in evaluation)`. */
  predicate AllMet(evaluation: seq<Assessment>)
  {
    forall k :: 0 <= k < |evaluation| ==> evaluation[k].isMet == Some(true)
  }

  /**
   * Where the loop puts a result: indeterminate exactly when it has an error
   * or no evaluation, eligible exactly when every criterion is met, and
   * ineligible exactly when some criterion is not.
   */
  function Classify(r: ResultRecord): (b: Bucket)
    ensures b == Indeterminate <==> r.error.Some? || r.evaluation.None?
    ensures b == Eligible <==>
      r.error.None? && r.evaluation.Some? && forall k :: 0 <= k < |r.evaluation.value| ==> r.evaluation.value[k].isMet == Some(true)
    ensures b == Ineligible <==>
      r.error.None? && r.evaluation.Some? && exists k :: 0 <= k < |r.evaluation.value| && r.evaluation.value[k].isMet != Some(true)
  {
    if r.error.Some? || r.evaluation.None? then Indeterminate
    else if AllMet(r.evaluation.value) then Eligible
    else Ineligible
  }

  /** One `criterion_summary`, with the defaults for missing keys. */
  function SummaryOf(a: Assessment): CriterionSummary
  {
    CriterionSummary(a.criterion.GetOr("Unknown"), a.isMet.GetOr(false), a.confidence.GetOr("low"),
                     a.rationale.GetOr(""), a.medications.GetOr([]))
  }

  /** The `criteria_summary` list: one entry per evaluation item, in order. */
  function CriteriaSummary(evaluation: seq<Assessment>): (r: seq<CriterionSummary>)
    ensures |r| == |evaluation|
  {
    if evaluation == [] then []
    else CriteriaSummary(evaluation[..|evaluation| - 1]) + [SummaryOf(evaluation[|evaluation| - 1])]
  }

  function TrialSummaryOf(r: ResultRecord): TrialSummary
  {
    TrialSummary(r.trialId.GetOr("Unknown"), r.trialTitle.GetOr("Unknown"), r.semanticScore.GetOr(0.0),
                 CriteriaSummary(r.evaluation.GetOr([])))
  }

  function IndeterminateOf(r: ResultRecord): IndeterminateEntry
  {
    IndeterminateEntry(r.trialId.GetOr("Unknown"), r.trialTitle.GetOr("Unknown"), r.semanticScore.GetOr(0.0),
                       r.error.GetOr("Unknown error"))
  }

  /** The summaries of the results in bucket `b`, in input order. */
  function Summaries(results: seq<ResultRecord>, b: Bucket): (r: seq<TrialSummary>)
    ensures |r| <= |results|
  {
    if results == [] then []
    else
      var last := results[|results| - 1];
      Summaries(results[..|results| - 1], b) + (if Classify(last) == b then [TrialSummaryOf(last)] else [])
  }

  /** The indeterminate entries, in input order. */
  function Indeterminates(results: seq<ResultRecord>): (r: seq<IndeterminateEntry>)
    ensures |r| <= |results|
  {
    if results == [] then []
    else
      var last := results[|results| - 1];
      Indeterminates(results[..|results| - 1]) + (if Classify(last) == Indeterminate then [IndeterminateOf(last)] else [])
  }

  function SummaryScore(t: TrialSummary): real { t.semanticScore }
  function EntryScore(e: IndeterminateEntry): real { e.semanticScore }

  /**
   * `format_results_for_output`, where `today` stands for the current date:
   * every trial lands in exactly one of the three lists.
   */
  function FormatResults(er: EligibilityResults, today: string): (out: FormattedOutput)
    ensures |out.eligible| + |out.ineligible| + |out.indeterminate| == |er.results|
  {
    BucketSizes(er.results);
    FormattedOutput(
      er.patientId.GetOr("Unknown"),
      er.evaluationDate.GetOr(today),
      er.trialsEvaluated.GetOr(0),
      Sorting.SortDesc(Summaries(er.results, Eligible), SummaryScore, Sorting.RealLess),
      Sorting.SortDesc(Summaries(er.results, Ineligible), SummaryScore, Sorting.RealLess),
      Sorting.SortDesc(Indeterminates(er.results), EntryScore, Sorting.RealLess))
  }

  // ---------------------------------------------------------------------------
  // The formatting loop
  // ---------------------------------------------------------------------------

  method BuildCriteriaSummary(evaluation: seq<Assessment>) returns (summary: seq<CriterionSummary>)
    ensures summary == CriteriaSummary(evaluation)
  {
    summary := [];
    var i := 0;
    while i < |evaluation|
      invariant 0 <= i <= |evaluation|
      invariant summary == CriteriaSummary(evaluation[..i])
    {
      assert evaluation[..i + 1][..i] == evaluation[..i];
      summary := summary + [SummaryOf(evaluation[i])];
      i := i + 1;
    }
    assert evaluation[..i] == evaluation;
  }

  method AllCriteriaMet(evaluation: seq<Assessment>) returns (met: bool)
    ensures met <==> AllMet(evaluation)
  {
    met := true;
    var i := 0;
    while i < |evaluation|
      invariant 0 <= i <= |evaluation|
      invariant met <==> forall k :: 0 <= k < i ==> evaluation[k].isMet == Some(true)
    {
      if !evaluation[i].isMet.GetOr(false) {
        met := false;
      }
      i := i + 1;
    }
  }

  /** The invariant of the formatting loop. */
  predicate BucketedSoFar(results: seq<ResultRecord>, i: nat, eligible: seq<TrialSummary>,
                          ineligible: seq<TrialSummary>, indeterminate: seq<IndeterminateEntry>)
    requires i <= |results|
  {
    && eligible == Summaries(results[..i], Eligible)
    && ineligible == Summaries(results[..i], Ineligible)
    && indeterminate == Indeterminates(results[..i])
  }

  lemma BucketStep(results: seq<ResultRecord>, i: nat, eligible: seq<TrialSummary>,
                   ineligible: seq<TrialSummary>, indeterminate: seq<IndeterminateEntry>)
    requires i < |results| && BucketedSoFar(results, i, eligible, ineligible, indeterminate)
    ensures var r := results[i];
      BucketedSoFar(results, i + 1,
                    eligible + (if Classify(r) == Eligible then [TrialSummaryOf(r)] else []),
                    ineligible + (if Classify(r) == Ineligible then [TrialSummaryOf(r)] else []),
                    indeterminate + (if Classify(r) == Indeterminate then [IndeterminateOf(r)] else []))
  {
    assert results[..i + 1][..i] == results[..i];
  }

  method FormatResultsForOutput(er: EligibilityResults, today: string) returns (out: FormattedOutput)
    ensures out == FormatResults(er, today)
  {
    var results := er.results;
    var eligible: seq<TrialSummary> := [];
    var ineligible: seq<TrialSummary> := [];
    var indeterminate: seq<IndeterminateEntry> := [];
    var i := 0;
    while i < |results|
      invariant 0 <= i <= |results|
      invariant BucketedSoFar(results, i, eligible, ineligible, indeterminate)
    {
      var r := results[i];
      BucketStep(results, i, eligible, ineligible, indeterminate);
      var id := r.trialId.GetOr("Unknown");
      var title := r.trialTitle.GetOr("Unknown");
      var score := r.semanticScore.GetOr(0.0);
      if r.error.Some? || r.evaluation.None? {
        indeterminate := indeterminate + [IndeterminateEntry(id, title, score, r.error.GetOr("Unknown error"))];
      } else {
        var evaluation := r.evaluation.value;
        var allMet := AllCriteriaMet(evaluation);
        var summary := BuildCriteriaSummary(evaluation);
        if allMet {
          eligible := eligible + [TrialSummary(id, title, score, summary)];
        } else {
          ineligible := ineligible + [TrialSummary(id, title, score, summary)];
        }
      }
      i := i + 1;
    }
    assert results[..i] == results;
    out := FormattedOutput(er.patientId.GetOr("Unknown"), er.evaluationDate.GetOr(today), er.trialsEvaluated.GetOr(0),
                           Sorting.SortDesc(eligible, SummaryScore, Sorting.RealLess),
                           Sorting.SortDesc(ineligible, SummaryScore, Sorting.RealLess),
                           Sorting.SortDesc(indeterminate, EntryScore, Sorting.RealLess));
  }

  // ---------------------------------------------------------------------------
  // What the formatted output promises
  // ---------------------------------------------------------------------------

  /** The number of results in bucket `b`. */
  function CountIn(results: seq<ResultRecord>, b: Bucket): nat
  {
    if results == [] then 0
    else CountIn(results[..|results| - 1], b) + (if Classify(results[|results| - 1]) == b then 1 else 0)
  }

  /** Each bucket holds exactly the results classified into it, so together the buckets hold every result once. */
  lemma {:induction false} BucketSizes(results: seq<ResultRecord>)
    ensures |Summaries(results, Eligible)| == CountIn(results, Eligible)
    ensures |Summaries(results, Ineligible)| == CountIn(results, Ineligible)
    ensures |Indeterminates(results)| == CountIn(results, Indeterminate)
    ensures CountIn(results, Eligible) + CountIn(results, Ineligible) + CountIn(results, Indeterminate) == |results|
    decreases |results|
  {
    if results != [] {
      BucketSizes(results[..|results| - 1]);
    }
  }

  /** An empty evaluation list is vacuously all met. */
  lemma EmptyEvaluationEligible(r: ResultRecord)
    requires r.error.None? && r.evaluation == Some([])
    ensures Classify(r) == Eligible
    ensures TrialSummaryOf(r).criteriaSummary == []
  {
  }

  /** The `k`-th entry of a criteria summary reads the `k`-th evaluation item, with defaults. */
  lemma {:induction false} CriteriaSummaryAt(evaluation: seq<Assessment>, k: nat)
    requires k < |evaluation|
    ensures var c := CriteriaSummary(evaluation)[k];
      && (evaluation[k].criterion.Some? ==> c.criterion == evaluation[k].criterion.value)
      && (evaluation[k].criterion.None? ==> c.criterion == "Unknown")
      && (c.isMet <==> evaluation[k].isMet == Some(true))
      && (evaluation[k].confidence.Some? ==> c.confidence == evaluation[k].confidence.value)
      && (evaluation[k].confidence.None? ==> c.confidence == "low")
      && (evaluation[k].rationale.Some? ==> c.rationale == evaluation[k].rationale.value)
      && (evaluation[k].rationale.None? ==> c.rationale == "")
      && (evaluation[k].medications.Some? ==> c.medications == evaluation[k].medications.value)
      && (evaluation[k].medications.None? ==> c.medications == [])
    decreases |evaluation|
  {
    if k < |evaluation| - 1 {
      var init := evaluation[..|evaluation| - 1];
      CriteriaSummaryAt(init, k);
      assert init[k] == evaluation[k];
    }
  }

  /** Every summary in a bucket comes from a result classified into it. */
  lemma {:induction false} SummariesFrom(results: seq<ResultRecord>, b: Bucket, k: nat)
    requires k < |Summaries(results, b)|
    ensures exists j :: 0 <= j < |results| && Classify(results[j]) == b && Summaries(results, b)[k] == TrialSummaryOf(results[j])
    decreases |results|
  {
    var init := results[..|results| - 1];
    if k < |Summaries(init, b)| {
      SummariesFrom(init, b, k);
      var j :| 0 <= j < |init| && Classify(init[j]) == b && Summaries(init, b)[k] == TrialSummaryOf(init[j]);
      assert results[j] == init[j];
    } else {
      assert Summaries(results, b)[k] == TrialSummaryOf(results[|results| - 1]);
    }
  }

  /** No result is lost: every result classified into a bucket has its summary there. */
  lemma {:induction false} SummariesComplete(results: seq<ResultRecord>, b: Bucket, j: nat)
    requires j < |results| && Classify(results[j]) == b
    ensures TrialSummaryOf(results[j]) in Summaries(results, b)
    decreases |results|
  {
    var init := results[..|results| - 1];
    if j < |results| - 1 {
      assert init[j] == results[j];
      SummariesComplete(init, b, j);
    }
  }

  /** Every indeterminate result has its entry in the indeterminate list. */
  lemma {:induction false} IndeterminatesComplete(results: seq<ResultRecord>, j: nat)
    requires j < |results| && Classify(results[j]) == Indeterminate
    ensures IndeterminateOf(results[j]) in Indeterminates(results)
    decreases |results|
  {
    var init := results[..|results| - 1];
    if j < |results| - 1 {
      assert init[j] == results[j];
      IndeterminatesComplete(init, j);
    }
  }

  /** An eligible trial's criteria are all met; an ineligible trial has one that is not. */
  lemma SummaryMet(results: seq<ResultRecord>, b: Bucket, k: nat)
    requires b != Indeterminate && k < |Summaries(results, b)|
    ensures var cs := Summaries(results, b)[k].criteriaSummary;
      b == Eligible <==> forall i :: 0 <= i < |cs| ==> cs[i].isMet
  {
    SummariesFrom(results, b, k);
    var j :| 0 <= j < |results| && Classify(results[j]) == b && Summaries(results, b)[k] == TrialSummaryOf(results[j]);
    var evaluation := results[j].evaluation.value;
    var cs := CriteriaSummary(evaluation);
    forall i | 0 <= i < |cs| ensures cs[i].isMet <==> evaluation[i].isMet == Some(true) {
      CriteriaSummaryAt(evaluation, i);
    }
  }

  /** Every indeterminate entry's reason is its result's error, or "Unknown error" when the result had none. */
  lemma {:induction false} IndeterminateReasons(results: seq<ResultRecord>, k: nat)
    requires k < |Indeterminates(results)|
    ensures exists j :: (0 <= j < |results| && Classify(results[j]) == Indeterminate
                         && Indeterminates(results)[k].reason == (if results[j].error.Some? then results[j].error.value else "Unknown error")
                         && Indeterminates(results)[k].trialId == results[j].trialId.GetOr("Unknown"))
    decreases |results|
  {
    var init := results[..|results| - 1];
    if k < |Indeterminates(init)| {
      IndeterminateReasons(init, k);
      var j :| 0 <= j < |init| && Classify(init[j]) == Indeterminate
        && Indeterminates(init)[k].reason == (if init[j].error.Some? then init[j].error.value else "Unknown error")
        && Indeterminates(init)[k].trialId == init[j].trialId.GetOr("Unknown");
      assert results[j] == init[j];
    } else {
      assert Indeterminates(results)[k] == IndeterminateOf(results[|results| - 1]);
    }
  }

  /**
   * Each list is in non-increasing score order, holds the same entries as the
   * unsorted bucket, and keeps the input order among equal scores.
   */
  lemma OutputSorted(er: EligibilityResults, today: string)
    ensures var out := FormatResults(er, today);
      && (forall i, j :: 0 <= i < j < |out.eligible| ==> out.eligible[i].semanticScore >= out.eligible[j].semanticScore)
      && (forall i, j :: 0 <= i < j < |out.ineligible| ==> out.ineligible[i].semanticScore >= out.ineligible[j].semanticScore)
      && (forall i, j :: 0 <= i < j < |out.indeterminate| ==> out.indeterminate[i].semanticScore >= out.indeterminate[j].semanticScore)
      && multiset(out.eligible) == multiset(Summaries(er.results, Eligible))
      && multiset(out.ineligible) == multiset(Summaries(er.results, Ineligible))
      && multiset(out.indeterminate) == multiset(Indeterminates(er.results))
      && (forall s :: Sorting.KeyFilter(out.eligible, SummaryScore, s) == Sorting.KeyFilter(Summaries(er.results, Eligible), SummaryScore, s))
      && (forall s :: Sorting.KeyFilter(out.ineligible, SummaryScore, s) == Sorting.KeyFilter(Summaries(er.results, Ineligible), SummaryScore, s))
      && (forall s :: Sorting.KeyFilter(out.indeterminate, EntryScore, s) == Sorting.KeyFilter(Indeterminates(er.results), EntryScore, s))
  {
    Sorting.RealLessStrictTotal();
    Sorting.SortDescSpec(Summaries(er.results, Eligible), SummaryScore, Sorting.RealLess);
    Sorting.SortDescSpec(Summaries(er.results, Ineligible), SummaryScore, Sorting.RealLess);
    Sorting.SortDescSpec(Indeterminates(er.results), EntryScore, Sorting.RealLess);
  }

  /**
   * A record built by the evaluation loop is indeterminate exactly when the
   * model raised or its answer did not decode, and the reason shown is then
   * the exception's message or the parse failure, never "Unknown error".
   */
  lemma EvaluationBucket(trial: EligibilityPrompt.RankedTrial, reply: EligibilityPrompt.Reply,
                         decode: string -> Option<seq<Assessment>>)
    ensures var r := EligibilityPrompt.TrialResult(trial, reply, decode);
      && (Classify(r) == Indeterminate <==> reply.Raised? || decode(EligibilityPrompt.ExtractJson(Strip(reply.content))).None?)
      && (reply.Raised? ==> IndeterminateOf(r).reason == reply.message)
      && (reply.Replied? && Classify(r) == Indeterminate ==> IndeterminateOf(r).reason == EligibilityPrompt.ParseFailure)
  {
  }

  // ---------------------------------------------------------------------------
  // Table rows
  // ---------------------------------------------------------------------------

  const StudyUrl := "https://clinicaltrials.gov/study/"

  datatype SummaryRow = SummaryRow(
    patientId: string,
    evaluationDate: string,
    totalTrialsEvaluated: int,
    eligibleTrials: nat,
    ineligibleTrials: nat,
    indeterminateTrials: nat)

  datatype EligibleRow = EligibleRow(
    trialId: string,
    trialTitle: string,
    semanticScore: real,
    numberOfCriteria: nat,
    allCriteriaMet: string,
    link: string)

  datatype IneligibleRow = IneligibleRow(
    trialId: string,
    trialTitle: string,
    semanticScore: real,
    unmetCriteria: nat,
    primaryReason: string,
    link: string)

  datatype CriterionRow = CriterionRow(
    trialId: string,
    trialTitle: string,
    criterion: string,
    isMet: string,
    confidence: string,
    rationale: string,
    medications: string)

  /** `sum(1 for c in criteria_summary if not c.get("is_met", False))`. */
  function UnmetCount(cs: seq<CriterionSummary>): (r: nat)
    ensures r <= |cs|
  {
    if cs == [] then 0 else (if cs[0].isMet then 0 else 1) + UnmetCount(cs[1..])
  }

  /** `next((c for c in criteria_summary if not c.get("is_met", False)), None)`. */
  function FirstUnmet(cs: seq<CriterionSummary>): Option<CriterionSummary>
  {
    if cs == [] then None else if !cs[0].isMet then Some(cs[0]) else FirstUnmet(cs[1..])
  }

  /** `s[:100] + "..."` when `s` is longer than 100 characters, else `s`. */
  function Truncate(s: string): (r: string)
    ensures |s| <= 100 ==> r == s
    ensures |s| > 100 ==> |r| == 103 && r[..100] == s[..100] && r[100..] == "..."
  {
    if |s| > 100 then s[..100] + "..." else s
  }

  /**
   * The "Primary Reason" cell: "Unknown" exactly when no criterion is unmet,
   * otherwise the first unmet criterion and its rationale, cut to 103 characters.
   */
  function PrimaryReason(cs: seq<CriterionSummary>): (r: string)
    ensures FirstUnmet(cs).None? <==> r == "Unknown"
    ensures forall i :: 0 <= i < |cs| && !cs[i].isMet && (forall j :: 0 <= j < i ==> cs[j].isMet) ==>
              r == Truncate(cs[i].criterion + ": " + cs[i].rationale)
    ensures |r| <= 103
  {
    FirstUnmetIsFirst(cs);
    match FirstUnmet(cs)
    case Some(c) =>
      ReasonNotUnknown(c.criterion, c.rationale);
      Truncate(c.criterion + ": " + c.rationale)
    case None => "Unknown"
  }

  /** `FirstUnmet` picks the unmet criterion that every earlier one precedes as met. */
  lemma {:induction false} FirstUnmetIsFirst(cs: seq<CriterionSummary>)
    ensures forall i :: 0 <= i < |cs| && !cs[i].isMet && (forall j :: 0 <= j < i ==> cs[j].isMet) ==>
              FirstUnmet(cs) == Some(cs[i])
    decreases |cs|
  {
    if cs != [] && cs[0].isMet {
      FirstUnmetIsFirst(cs[1..]);
      forall i | 0 <= i < |cs| && !cs[i].isMet && (forall j :: 0 <= j < i ==> cs[j].isMet)
        ensures FirstUnmet(cs) == Some(cs[i])
      {
        assert i > 0;
        assert cs[1..][i - 1] == cs[i];
        assert forall j :: 0 <= j < i - 1 ==> cs[1..][j] == cs[j + 1];
      }
    }
  }

  function SummaryRowOf(out: FormattedOutput): SummaryRow
  {
    SummaryRow(out.patientId, out.evaluationDate, out.totalTrialsEvaluated,
               |out.eligible|, |out.ineligible|, |out.indeterminate|)
  }

  function EligibleRowOf(t: TrialSummary): EligibleRow
  {
    EligibleRow(t.trialId, t.trialTitle, t.semanticScore, |t.criteriaSummary|, "Yes", StudyUrl + t.trialId)
  }

  function IneligibleRowOf(t: TrialSummary): IneligibleRow
  {
    IneligibleRow(t.trialId, t.trialTitle, t.semanticScore, UnmetCount(t.criteriaSummary),
                  PrimaryReason(t.criteriaSummary), StudyUrl + t.trialId)
  }

  function CriterionRowOf(t: TrialSummary, c: CriterionSummary): CriterionRow
  {
    CriterionRow(t.trialId, t.trialTitle, c.criterion, if c.isMet then "Yes" else "No",
                 Capitalize(c.confidence), c.rationale, Join(c.medications, ", "))
  }

  function EligibleRows(ts: seq<TrialSummary>): (r: seq<EligibleRow>)
    ensures |r| == |ts|
  {
    if ts == [] then [] else EligibleRows(ts[..|ts| - 1]) + [EligibleRowOf(ts[|ts| - 1])]
  }

  function IneligibleRows(ts: seq<TrialSummary>): (r: seq<IneligibleRow>)
    ensures |r| == |ts|
  {
    if ts == [] then [] else IneligibleRows(ts[..|ts| - 1]) + [IneligibleRowOf(ts[|ts| - 1])]
  }

  /** The detail rows of one trial, one per criterion. */
  function TrialCriterionRows(t: TrialSummary, cs: seq<CriterionSummary>): (r: seq<CriterionRow>)
    ensures |r| == |cs|
  {
    if cs == [] then [] else TrialCriterionRows(t, cs[..|cs| - 1]) + [CriterionRowOf(t, cs[|cs| - 1])]
  }

  /** The criteria-detail rows of all eligible trials, trial by trial. */
  function CriterionRows(ts: seq<TrialSummary>): seq<CriterionRow>
  {
    if ts == [] then []
    else CriterionRows(ts[..|ts| - 1]) + TrialCriterionRows(ts[|ts| - 1], ts[|ts| - 1].criteriaSummary)
  }

  /** The number of criteria over all trials. */
  function TotalCriteria(ts: seq<TrialSummary>): nat
  {
    if ts == [] then 0 else TotalCriteria(ts[..|ts| - 1]) + |ts[|ts| - 1].criteriaSummary|
  }

  // ---------------------------------------------------------------------------
  // The row-building loops of `create_dataframes`
  // ---------------------------------------------------------------------------

  method UnmetCriteria(cs: seq<CriterionSummary>) returns (count: nat, reason: string)
    ensures count == UnmetCount(cs) && reason == PrimaryReason(cs)
  {
    count := 0;
    var firstUnmet: Option<CriterionSummary> := None;
    var i := 0;
    while i < |cs|
      invariant 0 <= i <= |cs|
      invariant count + UnmetCount(cs[i..]) == UnmetCount(cs)
      invariant firstUnmet.Some? ==> firstUnmet == FirstUnmet(cs)
      invariant firstUnmet.None? ==> FirstUnmet(cs[i..]) == FirstUnmet(cs)
    {
      assert cs[i..][1..] == cs[i + 1..];
      if !cs[i].isMet {
        count := count + 1;
        if firstUnmet.None? {
          firstUnmet := Some(cs[i]);
        }
      }
      i := i + 1;
    }
    match firstUnmet {
      case Some(c) =>
        var full := c.criterion + ": " + c.rationale;
        reason := if |full| > 100 then full[..100] + "..." else full;
      case None =>
        assert cs[i..] == [];
        reason := "Unknown";
    }
  }

  method CriterionRowsOf(t: TrialSummary) returns (rows: seq<CriterionRow>)
    ensures rows == TrialCriterionRows(t, t.criteriaSummary)
  {
    var cs := t.criteriaSummary;
    rows := [];
    var i := 0;
    while i < |cs|
      invariant 0 <= i <= |cs|
      invariant rows == TrialCriterionRows(t, cs[..i])
    {
      assert cs[..i + 1][..i] == cs[..i];
      rows := rows + [CriterionRowOf(t, cs[i])];
      i := i + 1;
    }
    assert cs[..i] == cs;
  }

  method BuildEligibleRows(eligible: seq<TrialSummary>) returns (rows: seq<EligibleRow>)
    ensures rows == EligibleRows(eligible)
  {
    rows := [];
    var i := 0;
    while i < |eligible|
      invariant 0 <= i <= |eligible|
      invariant rows == EligibleRows(eligible[..i])
    {
      assert eligible[..i + 1][..i] == eligible[..i];
      var t := eligible[i];
      rows := rows + [EligibleRow(t.trialId, t.trialTitle, t.semanticScore, |t.criteriaSummary|, "Yes", StudyUrl + t.trialId)];
      i := i + 1;
    }
    assert eligible[..i] == eligible;
  }

  method BuildIneligibleRows(ineligible: seq<TrialSummary>) returns (rows: seq<IneligibleRow>)
    ensures rows == IneligibleRows(ineligible)
  {
    rows := [];
    var i := 0;
    while i < |ineligible|
      invariant 0 <= i <= |ineligible|
      invariant rows == IneligibleRows(ineligible[..i])
    {
      assert ineligible[..i + 1][..i] == ineligible[..i];
      var t := ineligible[i];
      var unmet, reason := UnmetCriteria(t.criteriaSummary);
      rows := rows + [IneligibleRow(t.trialId, t.trialTitle, t.semanticScore, unmet, reason, StudyUrl + t.trialId)];
      i := i + 1;
    }
    assert ineligible[..i] == ineligible;
  }

  method BuildCriterionRows(eligible: seq<TrialSummary>) returns (rows: seq<CriterionRow>)
    ensures rows == CriterionRows(eligible)
  {
    rows := [];
    var i := 0;
    while i < |eligible|
      invariant 0 <= i <= |eligible|
      invariant rows == CriterionRows(eligible[..i])
    {
      assert eligible[..i + 1][..i] == eligible[..i];
      var trialRows := CriterionRowsOf(eligible[i]);
      rows := rows + trialRows;
      i := i + 1;
    }
    assert eligible[..i] == eligible;
  }

  /** `create_dataframes`, row contents only. */
  method CreateRows(out: FormattedOutput)
    returns (summary: SummaryRow, eligibleRows: seq<EligibleRow>, ineligibleRows: seq<IneligibleRow>,
             criterionRows: seq<CriterionRow>)
    ensures summary == SummaryRowOf(out)
    ensures eligibleRows == EligibleRows(out.eligible)
    ensures ineligibleRows == IneligibleRows(out.ineligible)
    ensures criterionRows == CriterionRows(out.eligible)
  {
    summary := SummaryRow(out.patientId, out.evaluationDate, out.totalTrialsEvaluated,
                          |out.eligible|, |out.ineligible|, |out.indeterminate|);
    eligibleRows := BuildEligibleRows(out.eligible);
    ineligibleRows := BuildIneligibleRows(out.ineligible);
    criterionRows := BuildCriterionRows(out.eligible);
  }

  // ---------------------------------------------------------------------------
  // What the rows promise
  // ---------------------------------------------------------------------------

  /** The summary row counts each list, and the three counts add up to the results. */
  lemma SummaryCounts(er: EligibilityResults, today: string)
    ensures var out := FormatResults(er, today);
      var row := SummaryRowOf(out);
      && row.eligibleTrials == |out.eligible|
      && row.ineligibleTrials == |out.ineligible|
      && row.indeterminateTrials == |out.indeterminate|
      && row.eligibleTrials + row.ineligibleTrials + row.indeterminateTrials == |er.results|
      && row.patientId == er.patientId.GetOr("Unknown")
      && row.totalTrialsEvaluated == er.trialsEvaluated.GetOr(0)
  {
  }

  /** No criterion is unmet exactly when there is no first unmet one; the first unmet one is an unmet criterion of the list. */
  lemma {:induction false} PrimaryReasonIff(cs: seq<CriterionSummary>)
    ensures UnmetCount(cs) == 0 <==> FirstUnmet(cs).None?
    ensures FirstUnmet(cs).Some? ==> !FirstUnmet(cs).value.isMet && FirstUnmet(cs).value in cs
    ensures FirstUnmet(cs).Some? ==>
              exists i :: 0 <= i < |cs| && FirstUnmet(cs) == Some(cs[i]) && forall j :: 0 <= j < i ==> cs[j].isMet
    decreases |cs|
  {
    if cs != [] {
      PrimaryReasonIff(cs[1..]);
      if cs[0].isMet && FirstUnmet(cs).Some? {
        var i :| 0 <= i < |cs[1..]| && FirstUnmet(cs[1..]) == Some(cs[1..][i]) && forall j :: 0 <= j < i ==> cs[1..][j].isMet;
        assert FirstUnmet(cs) == Some(cs[i + 1]);
        assert forall j :: 0 < j < i + 1 ==> cs[j] == cs[1..][j - 1];
      } else if !cs[0].isMet {
        assert FirstUnmet(cs) == Some(cs[0]);
      }
    }
  }

  /** A "criterion: rationale" text, cut or not, is never the word "Unknown". */
  lemma ReasonNotUnknown(criterion: string, rationale: string)
    ensures Truncate(criterion + ": " + rationale) != "Unknown"
  {
    var full := criterion + ": " + rationale;
    if |full| <= 100 {
      assert full[|criterion|] == ':';
      assert forall i :: 0 <= i < |"Unknown"| ==> "Unknown"[i] != ':';
    }
  }

  /** In the ineligible table every row has at least one unmet criterion and a real reason. */
  lemma IneligibleRowsReasoned(er: EligibilityResults, today: string, k: nat)
    requires k < |FormatResults(er, today).ineligible|
    ensures var row := IneligibleRows(FormatResults(er, today).ineligible)[k];
      row.unmetCriteria >= 1 && row.primaryReason != "Unknown" && |row.primaryReason| <= 103
  {
    var sorted := FormatResults(er, today).ineligible;
    var unsorted := Summaries(er.results, Ineligible);
    OutputSorted(er, today);
    assert sorted[k] in multiset(unsorted);
    var j :| 0 <= j < |unsorted| && unsorted[j] == sorted[k];
    SummaryMet(er.results, Ineligible, j);
    var cs := sorted[k].criteriaSummary;
    var i :| 0 <= i < |cs| && !cs[i].isMet;
    UnmetPositive(cs, i);
    PrimaryReasonIff(cs);
    IneligibleRowsAt(sorted, k);
  }

  lemma {:induction false} UnmetPositive(cs: seq<CriterionSummary>, i: nat)
    requires i < |cs| && !cs[i].isMet
    ensures UnmetCount(cs) >= 1
    decreases |cs|
  {
    if i > 0 {
      UnmetPositive(cs[1..], i - 1);
    }
  }

  lemma {:induction false} IneligibleRowsAt(ts: seq<TrialSummary>, k: nat)
    requires k < |ts|
    ensures IneligibleRows(ts)[k] == IneligibleRowOf(ts[k])
    decreases |ts|
  {
    if k < |ts| - 1 {
      IneligibleRowsAt(ts[..|ts| - 1], k);
    }
  }

  lemma {:induction false} EligibleRowsAt(ts: seq<TrialSummary>, k: nat)
    requires k < |ts|
    ensures EligibleRows(ts)[k] == EligibleRowOf(ts[k])
    decreases |ts|
  {
    if k < |ts| - 1 {
      EligibleRowsAt(ts[..|ts| - 1], k);
    }
  }

  /** Each eligible row counts its trial's criteria and links to the trial's study page. */
  lemma EligibleRowsLink(ts: seq<TrialSummary>, k: nat)
    requires k < |ts|
    ensures var row := EligibleRows(ts)[k];
      && row.trialId == ts[k].trialId
      && row.numberOfCriteria == |ts[k].criteriaSummary|
      && row.allCriteriaMet == "Yes"
      && IsPrefix(StudyUrl, row.link) && row.link[|StudyUrl|..] == ts[k].trialId
  {
    EligibleRowsAt(ts, k);
    var row := EligibleRows(ts)[k];
    assert row.link[..|StudyUrl|] == StudyUrl;
  }

  /** The criteria-detail table has one row per criterion of each eligible trial. */
  lemma {:induction false} CriterionRowsCount(ts: seq<TrialSummary>)
    ensures |CriterionRows(ts)| == TotalCriteria(ts)
    decreases |ts|
  {
    if ts != [] {
      CriterionRowsCount(ts[..|ts| - 1]);
    }
  }

  /** A trial's detail rows say "Yes" exactly for its met criteria. */
  lemma {:induction false} TrialCriterionRowsMet(t: TrialSummary, cs: seq<CriterionSummary>)
    ensures forall i :: 0 <= i < |cs| ==> (TrialCriterionRows(t, cs)[i].isMet == "Yes" <==> cs[i].isMet)
    ensures forall i :: 0 <= i < |cs| ==> TrialCriterionRows(t, cs)[i].trialId == t.trialId
    decreases |cs|
  {
    if cs != [] {
      var front := cs[..|cs| - 1];
      TrialCriterionRowsMet(t, front);
      var init := TrialCriterionRows(t, front);
      var rows := TrialCriterionRows(t, cs);
      assert rows == init + [CriterionRowOf(t, cs[|cs| - 1])];
      forall i | 0 <= i < |cs| ensures (rows[i].isMet == "Yes" <==> cs[i].isMet) && rows[i].trialId == t.trialId {
        if i < |cs| - 1 {
          assert rows[i] == init[i] && front[i] == cs[i];
        }
      }
    }
  }

  /** A trial of the eligible list shows "Yes" in every detail row. */
  lemma EligibleDetailAllYes(er: EligibilityResults, today: string, k: nat)
    requires k < |FormatResults(er, today).eligible|
    ensures var t := FormatResults(er, today).eligible[k];
      forall i :: 0 <= i < |t.criteriaSummary| ==> TrialCriterionRows(t, t.criteriaSummary)[i].isMet == "Yes"
  {
    var sorted := FormatResults(er, today).eligible;
    var unsorted := Summaries(er.results, Eligible);
    OutputSorted(er, today);
    assert sorted[k] in multiset(unsorted);
    var j :| 0 <= j < |unsorted| && unsorted[j] == sorted[k];
    SummaryMet(er.results, Eligible, j);
    TrialCriterionRowsMet(sorted[k], sorted[k].criteriaSummary);
  }
}
