/**
 * Turning registry JSON documents into parsed trial records: the record
 * defaults of `parse_clinical_trial_eligibility`, the sampling and counting of
 * `process_json_file`, and the list/single/error shaping of the
 * trial-details script. JSON decoding, the database inserts and
 * `random.sample` are oracles given as parameters.
 */
module CorpusIngest {
  import opened Wrappers
  import opened Strings
  import opened TrialParsing

  // ---------------------------------------------------------------------------
  // The input and output records
  // ---------------------------------------------------------------------------

  /** One entry of `armsInterventionsModule.interventions`; `None` is a missing key. */
  datatype InterventionJson = InterventionJson(interventionType: Option<string>, name: Option<string>)

  /**
   * The keys of one trial document that the parser reads, flattened out of
   * their modules; a missing module makes all of its keys `None`.
   */
  datatype TrialJson = TrialJson(
    nctId: Option<string>,
    briefTitle: Option<string>,
    sex: Option<string>,
    minimumAge: Option<string>,
    maximumAge: Option<string>,
    healthyVolunteers: Option<bool>,
    stdAges: Option<seq<string>>,
    eligibilityCriteria: Option<string>,
    conditions: Option<seq<string>>,
    interventions: Option<seq<InterventionJson>>,
    enrollmentCount: Option<int>,
    briefSummary: Option<string>)

  datatype StructuredCriteria = StructuredCriteria(
    sex: string,
    minimumAge: Option<nat>,
    maximumAge: Option<nat>,
    acceptsHealthyVolunteers: bool,
    stdAges: seq<string>)

  datatype Intervention = Intervention(interventionType: string, name: string)

  datatype ParsedTrial = ParsedTrial(
    trialId: string,
    trialTitle: string,
    structured: StructuredCriteria,
    inclusion: seq<string>,
    exclusion: seq<string>,
    conditions: seq<string>,
    interventions: seq<Intervention>,
    participantCount: int,
    additional: map<string, bool>)

  /** `{"type": i.get("type", ""), "name": i.get("name", "")}` for each intervention, in order. */
  function InterventionsOf(xs: seq<InterventionJson>): (r: seq<Intervention>)
    ensures |r| == |xs|
    ensures forall k :: 0 <= k < |xs| ==>
      r[k].interventionType == xs[k].interventionType.GetOr("") && r[k].name == xs[k].name.GetOr("")
  {
    if xs == [] then []
    else [Intervention(xs[0].interventionType.GetOr(""), xs[0].name.GetOr(""))] + InterventionsOf(xs[1..])
  }

  /** `parse_clinical_trial_eligibility`. */
  function ParseTrial(t: TrialJson): ParsedTrial
  {
    var text := t.eligibilityCriteria.GetOr("");
    var sections := InclusionExclusion(text);
    ParsedTrial(
      t.nctId.GetOr(""),
      t.briefTitle.GetOr(""),
      StructuredCriteria(
        t.sex.GetOr(""),
        ParseAge(t.minimumAge.GetOr("")),
        ParseAge(t.maximumAge.GetOr("")),
        t.healthyVolunteers.GetOr(false),
        t.stdAges.GetOr([])),
      sections.0,
      sections.1,
      t.conditions.GetOr([]),
      InterventionsOf(t.interventions.GetOr([])),
      t.enrollmentCount.GetOr(0),
      AdditionalCriteria(text, t.briefSummary.GetOr("")))
  }

  /** Every key is read from its module, and a missing key takes its default. */
  lemma ParseTrialFields(t: TrialJson)
    ensures ParseTrial(t).trialId == t.nctId.GetOr("") && ParseTrial(t).trialTitle == t.briefTitle.GetOr("")
    ensures ParseTrial(t).structured.sex == t.sex.GetOr("")
    ensures ParseTrial(t).structured.minimumAge == ParseAge(t.minimumAge.GetOr(""))
    ensures ParseTrial(t).structured.maximumAge == ParseAge(t.maximumAge.GetOr(""))
    ensures ParseTrial(t).structured.acceptsHealthyVolunteers == t.healthyVolunteers.GetOr(false)
    ensures ParseTrial(t).structured.stdAges == t.stdAges.GetOr([])
    ensures (ParseTrial(t).inclusion, ParseTrial(t).exclusion) == InclusionExclusion(t.eligibilityCriteria.GetOr(""))
    ensures ParseTrial(t).conditions == t.conditions.GetOr([])
    ensures ParseTrial(t).interventions == InterventionsOf(t.interventions.GetOr([]))
    ensures ParseTrial(t).participantCount == t.enrollmentCount.GetOr(0)
    ensures ParseTrial(t).additional == AdditionalCriteria(t.eligibilityCriteria.GetOr(""), t.briefSummary.GetOr(""))
  {
  }

  /** A document with none of the keys. */
  const EmptyTrial := TrialJson(None, None, None, None, None, None, None, None, None, None, None, None)

  /** The defaults: empty strings, `False`, 0, no ages, and no criteria, conditions or interventions. */
  lemma EmptyTrialDefaults()
    ensures ParseTrial(EmptyTrial).trialId == "" && ParseTrial(EmptyTrial).trialTitle == ""
    ensures ParseTrial(EmptyTrial).structured == StructuredCriteria("", None, None, false, [])
    ensures ParseTrial(EmptyTrial).inclusion == [] && ParseTrial(EmptyTrial).exclusion == []
    ensures ParseTrial(EmptyTrial).conditions == [] && ParseTrial(EmptyTrial).interventions == []
    ensures ParseTrial(EmptyTrial).participantCount == 0
  {
    NoColonSplit("");
  }

  /** An age written as a number and a unit ("40 Years") is stored as that number. */
  lemma RenderedAgesRead(t: TrialJson, low: nat, high: nat)
    requires t.minimumAge == Some(NatToString(low) + " Years")
    requires t.maximumAge == Some(NatToString(high) + " Years")
    ensures ParseTrial(t).structured.minimumAge == Some(low)
    ensures ParseTrial(t).structured.maximumAge == Some(high)
  {
    ParseAgeOfRendering(low, " Years");
    ParseAgeOfRendering(high, " Years");
  }

  /** Every stored flag is `True` and comes from the eligibility table or the summary table. */
  lemma ParsedFlags(t: TrialJson)
    ensures forall f :: f in ParseTrial(t).additional ==> ParseTrial(t).additional[f]
    ensures forall f :: f in ParseTrial(t).additional <==>
      f in FlagsOf(t.eligibilityCriteria.GetOr(""), EligibilityRules) ||
      f in FlagsOf(t.briefSummary.GetOr(""), SummaryRules)
  {
    MergedFlagsTrue(t.eligibilityCriteria.GetOr(""), EligibilityRules, t.briefSummary.GetOr(""), SummaryRules);
  }

  // ---------------------------------------------------------------------------
  // The documents
  // ---------------------------------------------------------------------------

  /** One element of the decoded JSON: a trial object, or something the parser raises on. */
  datatype TrialDoc = Malformed(message: string) | Wellformed(trial: TrialJson)

  /** The decoded file: unreadable or invalid JSON, a list of trials, or a single trial. */
  datatype Document = Unreadable(message: string) | ListDoc(items: seq<TrialDoc>) | SingleDoc(item: TrialDoc)

  // ---------------------------------------------------------------------------
  // process_json_file: sampling and counting
  // ---------------------------------------------------------------------------

  /** What `random.sample(data, size)` promises: `size` elements drawn without replacement. */
  predicate IsSample(sampled: seq<TrialDoc>, data: seq<TrialDoc>, size: nat)
  {
    |sampled| == size && multiset(sampled) <= multiset(data)
  }

  /** A trial is processed when it parses and its insert does not raise. */
  predicate Succeeds(t: TrialDoc, parse: TrialJson -> ParsedTrial, insertOk: ParsedTrial -> bool)
  {
    t.Wellformed? && insertOk(parse(t.trial))
  }

  /** The number of trials that were processed. */
  function CountSucceeded(ts: seq<TrialDoc>, parse: TrialJson -> ParsedTrial, insertOk: ParsedTrial -> bool): (r: nat)
    ensures r <= |ts|
  {
    if ts == [] then 0
    else CountSucceeded(ts[..|ts| - 1], parse, insertOk) + (if Succeeds(ts[|ts| - 1], parse, insertOk) then 1 else 0)
  }

  /** `min(100, max(1, sample_size // 10))`. */
  function ProgressInterval(sampleSize: nat): (r: nat)
    ensures 1 <= r <= 100
    ensures sampleSize >= 1000 ==> r == 100
    ensures sampleSize < 20 ==> r == 1
    ensures 20 <= sampleSize < 1000 ==> r == sampleSize / 10
  {
    var tenth := sampleSize / 10;
    if tenth < 1 then 1 else if tenth > 100 then 100 else tenth
  }

  /** The 1-based positions whose progress line is printed: processed ones at a multiple of the interval. */
  function Reports(ts: seq<TrialDoc>, interval: nat, parse: TrialJson -> ParsedTrial, insertOk: ParsedTrial -> bool): (r: seq<nat>)
    requires interval >= 1
    ensures forall k :: 0 <= k < |r| ==> 1 <= r[k] <= |ts| && r[k] % interval == 0
  {
    if ts == [] then []
    else
      var n := |ts|;
      Reports(ts[..n - 1], interval, parse, insertOk) + (if Succeeds(ts[n - 1], parse, insertOk) && n % interval == 0 then [n] else [])
  }

  /** The trials the loop runs over: all of them, or the sample when there are more than `sample_size`. */
  function SampledTrials(items: seq<TrialDoc>, sampleSize: int, sampled: seq<TrialDoc>): seq<TrialDoc>
  {
    if |items| > sampleSize then sampled else items
  }

  /** `(total_trials, processed_trials)`; a negative sample size makes `random.sample` raise. */
  function IngestCounts(doc: Document, sampleSize: int, sampled: seq<TrialDoc>, parse: TrialJson -> ParsedTrial, insertOk: ParsedTrial -> bool): (nat, nat)
  {
    match doc
    case Unreadable(_) => (0, 0)
    case SingleDoc(t) => (1, if Succeeds(t, parse, insertOk) then 1 else 0)
    case ListDoc(items) =>
      if sampleSize < 0 then (0, 0)
      else (|items|, CountSucceeded(SampledTrials(items, sampleSize, sampled), parse, insertOk))
  }

  /** The counting loop over the sampled trials. */
  method ProcessSampled(ts: seq<TrialDoc>, sampleSize: nat, parse: TrialJson -> ParsedTrial, insertOk: ParsedTrial -> bool)
    returns (processed: nat, reports: seq<nat>)
    ensures processed == CountSucceeded(ts, parse, insertOk)
    ensures reports == Reports(ts, ProgressInterval(sampleSize), parse, insertOk)
  {
    processed := 0;
    reports := [];
    var interval := ProgressInterval(sampleSize);
    for i := 0 to |ts|
      invariant processed == CountSucceeded(ts[..i], parse, insertOk)
      invariant reports == Reports(ts[..i], interval, parse, insertOk)
    {
      assert ts[..i + 1][..i] == ts[..i];
      if ts[i].Wellformed? {
        var parsed := parse(ts[i].trial);
        if insertOk(parsed) {
          processed := processed + 1;
          if (i + 1) % interval == 0 {
            reports := reports + [i + 1];
          }
        }
      }
    }
    assert ts[..|ts|] == ts;
  }

  /**
   * `process_json_file`. `sampled` is what `random.sample` returns when it
   * is called, and `insertOk` says whether inserting a record succeeds.
   */
  method ProcessJsonFile(doc: Document, sampleSize: int, sampled: seq<TrialDoc>, insertOk: ParsedTrial -> bool)
    returns (total: nat, processed: nat, reports: seq<nat>)
    requires doc.ListDoc? && 0 <= sampleSize < |doc.items| ==> IsSample(sampled, doc.items, sampleSize)
    ensures (total, processed) == IngestCounts(doc, sampleSize, sampled, ParseTrial, insertOk)
    ensures doc.ListDoc? && sampleSize >= 0 ==>
      reports == Reports(SampledTrials(doc.items, sampleSize, sampled), ProgressInterval(sampleSize), ParseTrial, insertOk)
    ensures !(doc.ListDoc? && sampleSize >= 0) ==> reports == []
  {
    reports := [];
    match doc {
      case Unreadable(_) =>
        total, processed := 0, 0;
      case SingleDoc(t) =>
        total := 1;
        processed := if Succeeds(t, ParseTrial, insertOk) then 1 else 0;
      case ListDoc(items) =>
        if |items| > sampleSize && sampleSize < 0 {
          total, processed := 0, 0;
        } else {
          total := |items|;
          var trials := if |items| > sampleSize then sampled else items;
          processed, reports := ProcessSampled(trials, sampleSize, ParseTrial, insertOk);
        }
    }
  }

  /** At most `min(total, sample_size)` trials are processed, and never more than were found. */
  lemma ProcessedBounded(doc: Document, sampleSize: int, sampled: seq<TrialDoc>, parse: TrialJson -> ParsedTrial, insertOk: ParsedTrial -> bool)
    requires doc.ListDoc? && 0 <= sampleSize < |doc.items| ==> IsSample(sampled, doc.items, sampleSize)
    ensures IngestCounts(doc, sampleSize, sampled, parse, insertOk).1 <= IngestCounts(doc, sampleSize, sampled, parse, insertOk).0
    ensures doc.ListDoc? && sampleSize >= 0 ==>
      |SampledTrials(doc.items, sampleSize, sampled)| == Min(|doc.items|, sampleSize) &&
      IngestCounts(doc, sampleSize, sampled, parse, insertOk).1 <= Min(|doc.items|, sampleSize)
  {
  }

  /** The sampled trials are drawn from the file. */
  lemma SampledFromFile(items: seq<TrialDoc>, sampleSize: nat, sampled: seq<TrialDoc>)
    requires sampleSize < |items| ==> IsSample(sampled, items, sampleSize)
    ensures multiset(SampledTrials(items, sampleSize, sampled)) <= multiset(items)
  {
  }

  /** When every trial succeeds, all the sampled ones are counted. */
  lemma {:induction false} AllSucceedCounted(ts: seq<TrialDoc>, parse: TrialJson -> ParsedTrial, insertOk: ParsedTrial -> bool)
    requires forall k :: 0 <= k < |ts| ==> Succeeds(ts[k], parse, insertOk)
    ensures CountSucceeded(ts, parse, insertOk) == |ts|
  {
    if ts != [] {
      AllSucceedCounted(ts[..|ts| - 1], parse, insertOk);
    }
  }

  // ---------------------------------------------------------------------------
  // The trial-details script: one record per trial, or one error record
  // ---------------------------------------------------------------------------

  /** The script's result: the parsed records, or `[{"error": message}]`. */
  datatype DetailsResult = Records(parsed: seq<ParsedTrial>) | ErrorRecord(message: string)

  /** Parsing the list in order; the first element that raises ends it with its error. */
  function ParseAll(items: seq<TrialDoc>, parse: TrialJson -> ParsedTrial): (r: DetailsResult)
  {
    if items == [] then Records([])
    else
      var init := ParseAll(items[..|items| - 1], parse);
      var last := items[|items| - 1];
      if init.ErrorRecord? then init
      else if last.Malformed? then ErrorRecord(last.message)
      else Records(init.parsed + [parse(last.trial)])
  }

  function DetailsOf(doc: Document): DetailsResult
  {
    match doc
    case Unreadable(m) => ErrorRecord(m)
    case SingleDoc(t) => if t.Malformed? then ErrorRecord(t.message) else Records([ParseTrial(t.trial)])
    case ListDoc(items) => ParseAll(items, ParseTrial)
  }

  /** An error in a prefix is the error of the whole list. */
  lemma {:induction false} ParseAllErrorSticks(items: seq<TrialDoc>, parse: TrialJson -> ParsedTrial, i: nat)
    requires i <= |items|
    requires ParseAll(items[..i], parse).ErrorRecord?
    decreases |items| - i
    ensures ParseAll(items, parse) == ParseAll(items[..i], parse)
  {
    if i < |items| {
      assert items[..i + 1][..i] == items[..i];
      ParseAllErrorSticks(items, parse, i + 1);
    } else {
      assert items[..i] == items;
    }
  }

  /** A well-formed list gives one record per element, in order. */
  lemma {:induction false} ParseAllRecords(items: seq<TrialDoc>, parse: TrialJson -> ParsedTrial)
    requires forall k :: 0 <= k < |items| ==> items[k].Wellformed?
    ensures ParseAll(items, parse).Records?
    ensures |ParseAll(items, parse).parsed| == |items|
    ensures forall k :: 0 <= k < |items| ==> ParseAll(items, parse).parsed[k] == parse(items[k].trial)
  {
    if items != [] {
      var init := items[..|items| - 1];
      ParseAllRecords(init, parse);
    }
  }

  /** A list with an element that raises gives the error of the first such element. */
  lemma {:induction false} ParseAllFirstError(items: seq<TrialDoc>, parse: TrialJson -> ParsedTrial, i: nat)
    requires i < |items| && items[i].Malformed?
    requires forall k :: 0 <= k < i ==> items[k].Wellformed?
    ensures ParseAll(items, parse) == ErrorRecord(items[i].message)
  {
    ParseAllRecords(items[..i], parse);
    assert items[..i + 1][..i] == items[..i];
    ParseAllErrorSticks(items, parse, i + 1);
  }

  /** The list loop of `main`: each parsed record is appended, and the first exception ends it. */
  method ParseEach(items: seq<TrialDoc>, parse: TrialJson -> ParsedTrial) returns (r: DetailsResult)
    ensures r == ParseAll(items, parse)
  {
    var results: seq<ParsedTrial> := [];
    for i := 0 to |items|
      invariant ParseAll(items[..i], parse) == Records(results)
    {
      assert items[..i + 1][..i] == items[..i];
      if items[i].Malformed? {
        ParseAllErrorSticks(items, parse, i + 1);
        return ErrorRecord(items[i].message);
      }
      results := results + [parse(items[i].trial)];
    }
    assert items[..|items|] == items;
    r := Records(results);
  }

  /** The script's `main`: a list, a single trial, or the error record of any exception. */
  method ParseTrialFile(doc: Document) returns (r: DetailsResult)
    ensures r == DetailsOf(doc)
  {
    match doc {
      case Unreadable(m) =>
        r := ErrorRecord(m);
      case SingleDoc(t) =>
        r := if t.Malformed? then ErrorRecord(t.message) else Records([ParseTrial(t.trial)]);
      case ListDoc(items) =>
        r := ParseEach(items, ParseTrial);
    }
  }
}
