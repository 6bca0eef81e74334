/**
 * Eligibility evaluation: the first `top_k` ranked trials each get a rule-built
 * list of inclusion criteria, numbered into a prompt for a language model, and
 * one result record built from the model's reply. The model is the oracle
 * `ask`, given the values the prompt's fixed instructions are filled with;
 * `json.loads` is the oracle `decode`, which yields `None` where it would
 * raise `JSONDecodeError`.
 */
module EligibilityPrompt {
  import opened Wrappers
  import opened Strings

  // ---------------------------------------------------------------------------
  // Inputs and outputs, as the JSON files hold them (`None` is a missing key)
  // ---------------------------------------------------------------------------

  /** One entry of a trial's `interventions` list. */
  datatype InterventionEntry = InterventionEntry(intervention: Option<string>)

  /** A trial of the matcher's `matched_trials` list. */
  datatype RankedTrial = RankedTrial(
    trialId: Option<string>,
    trialTitle: Option<string>,
    semanticScore: Option<real>,
    minimumAge: Option<int>,
    maximumAge: Option<int>,
    sex: Option<string>,
    conditions: seq<string>,
    interventions: seq<InterventionEntry>)

  /** The patient's `key_clinical_info` summaries. */
  datatype KeyInfo = KeyInfo(
    demographicSummary: Option<string>,
    conditionSummary: Option<string>,
    medicationSummary: Option<string>,
    labSummary: Option<string>,
    procedureSummary: Option<string>)

  datatype PatientData = PatientData(patientId: Option<string>, keyClinicalInfo: Option<KeyInfo>)

  /** One item of the model's JSON answer. */
  datatype Assessment = Assessment(
    criterion: Option<string>,
    isMet: Option<bool>,
    confidence: Option<string>,
    rationale: Option<string>,
    medications: Option<seq<string>>)

  /** One entry of `results`; the report reads the same keys back. */
  datatype ResultRecord = ResultRecord(
    trialId: Option<string>,
    trialTitle: Option<string>,
    semanticScore: Option<real>,
    evaluation: Option<seq<Assessment>>,
    rawResponse: Option<string>,
    error: Option<string>)

  /** The document `evaluate_patient_eligibility` returns and the report loads. */
  datatype EligibilityResults = EligibilityResults(
    patientId: Option<string>,
    evaluationDate: Option<string>,
    trialsEvaluated: Option<int>,
    results: seq<ResultRecord>)

  /** What `llm.invoke` does: raise with a message (`str(e)`), or answer with content. */
  datatype Reply = Raised(message: string) | Replied(content: string)

  // ---------------------------------------------------------------------------
  // Top-k selection
  // ---------------------------------------------------------------------------

  /**
   * `ranked_trials[:min(top_k, len(ranked_trials))]`: a prefix of the ranking,
   * the first `top_k` for a non-negative `top_k`, all but the last `-top_k` otherwise.
   */
  function TopTrials(ranked: seq<RankedTrial>, topK: int): (r: seq<RankedTrial>)
    ensures |r| <= |ranked| && r == ranked[..|r|]
    ensures topK >= 0 ==> |r| == Min(topK, |ranked|)
    ensures topK < 0 ==> |r| == (if |ranked| + topK > 0 then |ranked| + topK else 0)
  {
    TakePy(ranked, Min(topK, |ranked|))
  }

  // ---------------------------------------------------------------------------
  // Rule-built inclusion criteria
  // ---------------------------------------------------------------------------

  const Between := "Patient must be between "
  const AtLeast := "Patient must be at least "
  const NoMoreThan := "Patient must be no more than "
  const YearsOfAge := " years of age"
  const MedicationPrefix := "Patient must be eligible for medication: "
  const ProcedurePrefix := "Patient must be eligible for procedure: "
  const ConditionsPrefix := "Patient must have one of the following conditions: "
  const Consent := "Patient must be able to provide informed consent"
  const Comply := "Patient must be willing to comply with all study procedures"

  /** The age criterion: both bounds, the lower, the upper, or none. */
  function AgeCriteria(minAge: Option<int>, maxAge: Option<int>): seq<string>
  {
    if minAge.Some? && maxAge.Some? then
      [Between + IntToString(minAge.value) + " and " + IntToString(maxAge.value) + YearsOfAge]
    else if minAge.Some? then [AtLeast + IntToString(minAge.value) + YearsOfAge]
    else if maxAge.Some? then [NoMoreThan + IntToString(maxAge.value) + YearsOfAge]
    else []
  }

  /** A sex criterion only for exactly `"MALE"` or `"FEMALE"`. */
  function SexCriteria(sex: Option<string>): seq<string>
  {
    if sex == Some("MALE") then ["Patient must be male"]
    else if sex == Some("FEMALE") then ["Patient must be female"]
    else []
  }

  /** One criterion naming every condition, joined with `", "`, when there is any. */
  function ConditionCriteria(conditions: seq<string>): seq<string>
  {
    if |conditions| > 0 then [ConditionsPrefix + Join(conditions, ", ")] else []
  }

  /** `intervention.get("intervention", "")`. */
  function InterventionText(e: InterventionEntry): string { e.intervention.GetOr("") }

  /** `"Drug"` is checked before `"Procedure"`, both as case-sensitive substrings. */
  function InterventionCriterion(text: string): seq<string>
  {
    if Contains(text, "Drug") then [MedicationPrefix + text]
    else if Contains(text, "Procedure") then [ProcedurePrefix + text]
    else []
  }

  /** The criteria of the intervention loop, in list order. */
  function InterventionCriteria(entries: seq<InterventionEntry>): seq<string>
  {
    if entries == [] then []
    else InterventionCriteria(entries[..|entries| - 1]) + InterventionCriterion(InterventionText(entries[|entries| - 1]))
  }

  /** The criteria before the placeholder rule. */
  function RuleCriteria(trial: RankedTrial): seq<string>
  {
    AgeCriteria(trial.minimumAge, trial.maximumAge) + SexCriteria(trial.sex)
      + ConditionCriteria(trial.conditions) + InterventionCriteria(trial.interventions)
  }

  /** `extract_inclusion_criteria`: the rule criteria, padded with two placeholders when fewer than three. */
  function InclusionCriteria(trial: RankedTrial): (r: seq<string>)
    ensures |r| >= 2
  {
    var base := RuleCriteria(trial);
    if |base| < 3 then base + [Consent, Comply] else base
  }

  method ExtractInclusionCriteria(trial: RankedTrial) returns (criteria: seq<string>)
    ensures criteria == InclusionCriteria(trial)
  {
    criteria := [];
    var minAge := trial.minimumAge;
    var maxAge := trial.maximumAge;
    if minAge.Some? && maxAge.Some? {
      criteria := criteria + [Between + IntToString(minAge.value) + " and " + IntToString(maxAge.value) + YearsOfAge];
    } else if minAge.Some? {
      criteria := criteria + [AtLeast + IntToString(minAge.value) + YearsOfAge];
    } else if maxAge.Some? {
      criteria := criteria + [NoMoreThan + IntToString(maxAge.value) + YearsOfAge];
    }
    assert criteria == AgeCriteria(minAge, maxAge);
    ghost var before := criteria;
    if trial.sex == Some("MALE") {
      criteria := criteria + ["Patient must be male"];
    } else if trial.sex == Some("FEMALE") {
      criteria := criteria + ["Patient must be female"];
    }
    assert criteria == before + SexCriteria(trial.sex);
    before := criteria;
    if |trial.conditions| > 0 {
      criteria := criteria + [ConditionsPrefix + Join(trial.conditions, ", ")];
    }
    assert criteria == before + ConditionCriteria(trial.conditions);
    ghost var fixed := criteria;
    var entries := trial.interventions;
    var k := 0;
    while k < |entries|
      invariant 0 <= k <= |entries|
      invariant LoopedOver(criteria, fixed, entries, k)
    {
      var text := InterventionText(entries[k]);
      before := criteria;
      if Contains(text, "Drug") {
        criteria := criteria + [MedicationPrefix + text];
      } else if Contains(text, "Procedure") {
        criteria := criteria + [ProcedurePrefix + text];
      }
      assert criteria == before + InterventionCriterion(text);
      InterventionStep(criteria, before, fixed, entries, k);
      k := k + 1;
    }
    assert entries[..k] == entries;
    assert criteria == RuleCriteria(trial);
    if |criteria| < 3 {
      criteria := criteria + [Consent, Comply];
    }
  }

  /** The invariant of the intervention loop: `fixed`, then the criteria of the first `k` entries. */
  predicate LoopedOver(criteria: seq<string>, fixed: seq<string>, entries: seq<InterventionEntry>, k: nat)
    requires k <= |entries|
  {
    criteria == fixed + InterventionCriteria(entries[..k])
  }

  lemma InterventionStep(criteria: seq<string>, before: seq<string>, fixed: seq<string>, entries: seq<InterventionEntry>, k: nat)
    requires k < |entries| && LoopedOver(before, fixed, entries, k)
    requires criteria == before + InterventionCriterion(InterventionText(entries[k]))
    ensures LoopedOver(criteria, fixed, entries, k + 1)
  {
    assert entries[..k + 1][..k] == entries[..k];
    ConcatAssoc(fixed, InterventionCriteria(entries[..k]), InterventionCriterion(InterventionText(entries[k])));
  }

  // ---------------------------------------------------------------------------
  // What the criteria say
  // ---------------------------------------------------------------------------

  /** Reads the bounds back out of an age criterion: the inverse of `AgeCriteria`. */
  function ReadAgeCriterion(c: string): (Option<int>, Option<int>)
  {
    if !IsSuffix(YearsOfAge, c) then (None, None)
    else
      var body := c[..|c| - |YearsOfAge|];
      if IsPrefix(Between, body) then
        var bounds := Split(body[|Between|..], " and ");
        if |bounds| == 2 then (ParseInt(bounds[0]), ParseInt(bounds[1])) else (None, None)
      else if IsPrefix(AtLeast, body) then (ParseInt(body[|AtLeast|..]), None)
      else if IsPrefix(NoMoreThan, body) then (None, ParseInt(body[|NoMoreThan|..]))
      else (None, None)
  }

  /** A text between a prefix and a suffix, seen from both ends. */
  lemma Framed(p: string, t: string, q: string)
    ensures IsSuffix(q, p + t + q) && (p + t + q)[..|p + t + q| - |q|] == p + t
    ensures IsPrefix(p, p + t) && (p + t)[|p|..] == t
  {
    var c := p + t + q;
    assert c[|c| - |q|..] == q;
    assert c[..|c| - |q|] == p + t;
    assert (p + t)[..|p|] == p;
  }

  /** A prefix that differs from `p` at some position before either ends is not `p`. */
  lemma NotPrefixAt(p: string, q: string, t: string, i: nat)
    requires i < |p| && i < |q| && p[i] != q[i]
    ensures !IsPrefix(p, q + t)
  {
    assert (q + t)[i] == q[i];
  }

  lemma ReadBetween(a: string, b: string)
    requires ' ' !in a && ' ' !in b
    ensures ReadAgeCriterion(Between + a + " and " + b + YearsOfAge) == (ParseInt(a), ParseInt(b))
  {
    var t := a + " and " + b;
    Framed(Between, t, YearsOfAge);
    assert Between + a + " and " + b + YearsOfAge == Between + t + YearsOfAge;
    SplitPair(a, " and ", b);
  }

  lemma ReadAtLeast(a: string)
    ensures ReadAgeCriterion(AtLeast + a + YearsOfAge) == (ParseInt(a), None)
  {
    Framed(AtLeast, a, YearsOfAge);
    assert Between[16] == 'b' && AtLeast[16] == 'a';
    NotPrefixAt(Between, AtLeast, a, 16);
  }

  lemma ReadNoMoreThan(b: string)
    ensures ReadAgeCriterion(NoMoreThan + b + YearsOfAge) == (None, ParseInt(b))
  {
    Framed(NoMoreThan, b, YearsOfAge);
    assert Between[16] == 'b' && AtLeast[16] == 'a' && NoMoreThan[16] == 'n';
    NotPrefixAt(Between, NoMoreThan, b, 16);
    NotPrefixAt(AtLeast, NoMoreThan, b, 16);
  }

  /** At most one age criterion, present exactly when a bound is known, and it gives the bounds back. */
  lemma AgeCriterionRoundTrip(minAge: Option<int>, maxAge: Option<int>)
    ensures AgeCriteria(minAge, maxAge) == [] <==> minAge.None? && maxAge.None?
    ensures |AgeCriteria(minAge, maxAge)| <= 1
    ensures AgeCriteria(minAge, maxAge) != [] ==> ReadAgeCriterion(AgeCriteria(minAge, maxAge)[0]) == (minAge, maxAge)
  {
    if minAge.Some? {
      IntToStringParse(minAge.value);
      IntToStringNoSpace(minAge.value);
    }
    if maxAge.Some? {
      IntToStringParse(maxAge.value);
      IntToStringNoSpace(maxAge.value);
    }
    if minAge.Some? && maxAge.Some? {
      ReadBetween(IntToString(minAge.value), IntToString(maxAge.value));
    } else if minAge.Some? {
      ReadAtLeast(IntToString(minAge.value));
    } else if maxAge.Some? {
      ReadNoMoreThan(IntToString(maxAge.value));
    }
  }

  lemma IntToStringNoSpace(i: int)
    ensures ' ' !in IntToString(i)
  {
    IntToStringChars(i);
  }

  /** One conditions criterion exactly when there are conditions; their names split back out of it. */
  lemma ConditionsRoundTrip(conditions: seq<string>)
    requires forall k :: 0 <= k < |conditions| ==> ',' !in conditions[k]
    ensures ConditionCriteria(conditions) == [] <==> conditions == []
    ensures conditions != [] ==>
      && |ConditionCriteria(conditions)| == 1
      && IsPrefix(ConditionsPrefix, ConditionCriteria(conditions)[0])
      && Split(ConditionCriteria(conditions)[0][|ConditionsPrefix|..], ", ") == conditions
  {
    if conditions != [] {
      var c := ConditionsPrefix + Join(conditions, ", ");
      assert c[..|ConditionsPrefix|] == ConditionsPrefix && c[|ConditionsPrefix|..] == Join(conditions, ", ");
      SplitJoin(conditions, ", ");
    }
  }

  /** Every intervention criterion comes from a listed intervention, as a medication when it mentions `"Drug"`, else as a procedure. */
  lemma {:induction false} InterventionCriteriaSound(entries: seq<InterventionEntry>, c: string)
    requires c in InterventionCriteria(entries)
    ensures exists k :: 0 <= k < |entries| && FromIntervention(c, InterventionText(entries[k]))
    decreases |entries|
  {
    var init := entries[..|entries| - 1];
    var t := InterventionText(entries[|entries| - 1]);
    if c in InterventionCriteria(init) {
      InterventionCriteriaSound(init, c);
      var k :| 0 <= k < |init| && FromIntervention(c, InterventionText(init[k]));
      assert init[k] == entries[k];
    } else {
      assert c in InterventionCriterion(t);
      assert FromIntervention(c, InterventionText(entries[|entries| - 1]));
    }
  }

  /** `c` is the criterion the loop writes for the intervention text `t`. */
  predicate FromIntervention(c: string, t: string)
  {
    || (Contains(t, "Drug") && c == MedicationPrefix + t)
    || (!Contains(t, "Drug") && Contains(t, "Procedure") && c == ProcedurePrefix + t)
  }

  /** Every intervention mentioning `"Drug"` or `"Procedure"` gets its criterion. */
  lemma {:induction false} InterventionCriteriaComplete(entries: seq<InterventionEntry>, k: nat)
    requires k < |entries|
    requires Contains(InterventionText(entries[k]), "Drug") || Contains(InterventionText(entries[k]), "Procedure")
    ensures |InterventionCriterion(InterventionText(entries[k]))| == 1
    ensures InterventionCriterion(InterventionText(entries[k]))[0] in InterventionCriteria(entries)
    decreases |entries|
  {
    var init := entries[..|entries| - 1];
    if k < |entries| - 1 {
      assert init[k] == entries[k];
      InterventionCriteriaComplete(init, k);
    }
  }

  /** Every rule criterion opens "Patient must be ", except the conditions one. */
  predicate RuleOpening(c: string)
  {
    IsPrefix("Patient must be ", c) || IsPrefix(ConditionsPrefix, c)
  }

  /**
   * A rule criterion has its opening, and characters 16 and 17 (right after
   * "Patient must be ") tell it apart from either placeholder.
   */
  predicate RuleLabelled(c: string)
  {
    RuleOpening(c) && |c| > 17 && c[16] != 'w' && !(c[16] == 'a' && c[17] == 'b')
  }

  lemma PrefixLabel(prefix: string, t: string)
    requires RuleLabelled(prefix)
    ensures RuleLabelled(prefix + t)
  {
    assert (prefix + t)[16] == prefix[16] && (prefix + t)[17] == prefix[17];
    assert (prefix + t)[..|prefix|] == prefix;
  }

  lemma AgeLabelled(minAge: Option<int>, maxAge: Option<int>)
    ensures forall c :: c in AgeCriteria(minAge, maxAge) ==> RuleLabelled(c)
  {
    if minAge.Some? && maxAge.Some? {
      assert RuleLabelled(Between);
      var lo := IntToString(minAge.value);
      PrefixLabel(Between, lo);
      PrefixLabel(Between + lo, " and ");
      PrefixLabel(Between + lo + " and ", IntToString(maxAge.value));
      PrefixLabel(Between + lo + " and " + IntToString(maxAge.value), YearsOfAge);
    } else if minAge.Some? {
      assert RuleLabelled(AtLeast);
      PrefixLabel(AtLeast, IntToString(minAge.value));
      PrefixLabel(AtLeast + IntToString(minAge.value), YearsOfAge);
    } else if maxAge.Some? {
      assert RuleLabelled(NoMoreThan);
      PrefixLabel(NoMoreThan, IntToString(maxAge.value));
      PrefixLabel(NoMoreThan + IntToString(maxAge.value), YearsOfAge);
    }
  }

  lemma InterventionsLabelled(entries: seq<InterventionEntry>)
    ensures forall c :: c in InterventionCriteria(entries) ==> RuleLabelled(c)
  {
    assert RuleLabelled(MedicationPrefix) && RuleLabelled(ProcedurePrefix);
    forall c | c in InterventionCriteria(entries) ensures RuleLabelled(c) {
      InterventionCriteriaSound(entries, c);
      var k :| 0 <= k < |entries| && FromIntervention(c, InterventionText(entries[k]));
      PrefixLabel(MedicationPrefix, InterventionText(entries[k]));
      PrefixLabel(ProcedurePrefix, InterventionText(entries[k]));
    }
  }

  /** No rule criterion reads like a placeholder. */
  lemma RuleCriteriaLabelled(trial: RankedTrial)
    ensures forall c :: c in RuleCriteria(trial) ==> RuleLabelled(c)
  {
    AgeLabelled(trial.minimumAge, trial.maximumAge);
    InterventionsLabelled(trial.interventions);
    assert RuleLabelled("Patient must be male") && RuleLabelled("Patient must be female");
    if |trial.conditions| > 0 {
      assert RuleLabelled(ConditionsPrefix);
      PrefixLabel(ConditionsPrefix, Join(trial.conditions, ", "));
    }
  }

  /** The placeholders appear exactly when the rules gave fewer than three criteria, and then last. */
  lemma PlaceholdersOnlyWhenShort(trial: RankedTrial)
    ensures Consent in InclusionCriteria(trial) <==> |RuleCriteria(trial)| < 3
    ensures Comply in InclusionCriteria(trial) <==> |RuleCriteria(trial)| < 3
    ensures |RuleCriteria(trial)| < 3 ==> InclusionCriteria(trial) == RuleCriteria(trial) + [Consent, Comply]
    ensures |RuleCriteria(trial)| >= 3 ==> InclusionCriteria(trial) == RuleCriteria(trial)
  {
    RuleCriteriaLabelled(trial);
    assert Consent[16] == 'a' && Consent[17] == 'b' && Comply[16] == 'w';
  }

  // ---------------------------------------------------------------------------
  // Numbered formatting
  // ---------------------------------------------------------------------------

  const NoCriteria := "No specific " + "inclusion criteria " + "found for this trial."

  /** The line for the `n`-th criterion, counting from 1. */
  function NumberedLine(n: nat, criterion: string): string
  {
    NatToString(n) + ". " + criterion
  }

  /** The numbered lines of the loop, each ended by a newline. */
  function Numbered(criteria: seq<string>): string
  {
    if criteria == [] then ""
    else Numbered(criteria[..|criteria| - 1]) + NumberedLine(|criteria|, criteria[|criteria| - 1]) + "\n"
  }

  /** `format_inclusion_criteria`. */
  function FormatCriteria(criteria: seq<string>): string
  {
    if criteria == [] then NoCriteria else Numbered(criteria)
  }

  method FormatInclusionCriteria(criteria: seq<string>) returns (formatted: string)
    ensures formatted == FormatCriteria(criteria)
  {
    if |criteria| == 0 {
      return NoCriteria;
    }
    formatted := "";
    var i := 0;
    while i < |criteria|
      invariant 0 <= i <= |criteria|
      invariant formatted == Numbered(criteria[..i])
    {
      assert criteria[..i + 1][..i] == criteria[..i];
      formatted := formatted + NatToString(i + 1) + ". " + criteria[i] + "\n";
      i := i + 1;
    }
    assert criteria[..i] == criteria;
  }

  /** The lines a numbered list is made of. */
  function NumberedLines(criteria: seq<string>): (r: seq<string>)
    ensures |r| == |criteria|
  {
    seq(|criteria|, k requires 0 <= k < |criteria| => NumberedLine(k + 1, criteria[k]))
  }

  /** A line without its `"n. "` label. */
  function Unlabel(line: string): string
  {
    Join(Split(line, ". ")[1..], ". ")
  }

  /** Reads the criteria back out of a formatted list: the inverse of `FormatCriteria`. */
  function ReadCriteria(text: string): seq<string>
  {
    var lines := Split(text, "\n");
    seq(|lines| - 1, k requires 0 <= k < |lines| - 1 => Unlabel(lines[k]))
  }

  lemma {:induction false} NumberedIsJoin(criteria: seq<string>)
    requires criteria != []
    ensures Numbered(criteria) == Join(NumberedLines(criteria), "\n") + "\n"
    decreases |criteria|
  {
    var init := criteria[..|criteria| - 1];
    var line := NumberedLine(|criteria|, criteria[|criteria| - 1]);
    assert NumberedLines(criteria) == NumberedLines(init) + [line];
    if init == [] {
      assert NumberedLines(criteria) == [line];
    } else {
      NumberedIsJoin(init);
      JoinSnoc(NumberedLines(init), line, "\n");
    }
  }

  lemma UnlabelLine(n: nat, criterion: string)
    ensures Unlabel(NumberedLine(n, criterion)) == criterion
  {
    assert !IsDigit('.');
    SplitAfterFree(NatToString(n), ". ", criterion);
    JoinSplit(criterion, ". ");
  }

  /** Numbered lines hold no newline when the criteria hold none. */
  lemma NumberedLinesFree(criteria: seq<string>)
    requires forall k :: 0 <= k < |criteria| ==> '\n' !in criteria[k]
    ensures forall k :: 0 <= k < |NumberedLines(criteria) + [""]| ==> "\n"[0] !in (NumberedLines(criteria) + [""])[k]
  {
    var lines := NumberedLines(criteria);
    forall k | 0 <= k < |lines + [""]| ensures "\n"[0] !in (lines + [""])[k] {
      if k < |lines| {
        assert !IsDigit('\n');
        assert (lines + [""])[k] == NatToString(k + 1) + ". " + criteria[k];
      }
    }
  }

  /** A non-empty numbered list splits into its lines and a final empty piece. */
  lemma NumberedSplit(criteria: seq<string>)
    requires criteria != []
    requires forall k :: 0 <= k < |criteria| ==> '\n' !in criteria[k]
    ensures Split(Numbered(criteria), "\n") == NumberedLines(criteria) + [""]
  {
    var lines := NumberedLines(criteria);
    var joined := Join(lines, "\n");
    NumberedIsJoin(criteria);
    JoinSnoc(lines, "", "\n");
    assert joined + "\n" + "" == joined + "\n";
    assert Join(lines + [""], "\n") == Numbered(criteria);
    NumberedLinesFree(criteria);
    SplitJoin(lines + [""], "\n");
  }

  /** Reading back text that splits into numbered lines and an empty piece. */
  lemma ReadNumbered(text: string, criteria: seq<string>)
    requires Split(text, "\n") == NumberedLines(criteria) + [""]
    ensures ReadCriteria(text) == criteria
  {
    var lines := NumberedLines(criteria);
    forall k | 0 <= k < |lines| ensures Unlabel(lines[k]) == criteria[k] {
      UnlabelLine(k + 1, criteria[k]);
    }
    assert forall k :: 0 <= k < |lines| ==> (lines + [""])[k] == lines[k];
  }

  lemma NoCriteriaOneLine()
    ensures '\n' !in NoCriteria
  {
    assert '\n' !in "No specific ";
    assert '\n' !in "inclusion criteria ";
    assert '\n' !in "found for this trial.";
  }

  /** The fixed sentence holds no newline, so it reads back as no criteria. */
  lemma ReadNoCriteria()
    ensures ReadCriteria(NoCriteria) == []
  {
    NoCriteriaOneLine();
    AbsentHead(NoCriteria, "\n");
    SplitAbsent(NoCriteria, "\n");
  }

  /** A numbered list ends in a newline, so it is never the fixed sentence. */
  lemma NumberedNotNoCriteria(criteria: seq<string>)
    requires criteria != []
    ensures Numbered(criteria) != NoCriteria
  {
    assert Numbered(criteria)[|Numbered(criteria)| - 1] == '\n';
    assert NoCriteria[|NoCriteria| - 1] == '.';
  }

  /**
   * The formatted list splits into one numbered line per criterion, counting
   * from 1, and reading it back gives the criteria; the empty list gives the
   * fixed sentence, which reads back as no criteria.
   */
  lemma FormatRoundTrip(criteria: seq<string>)
    requires forall k :: 0 <= k < |criteria| ==> '\n' !in criteria[k]
    ensures criteria == [] <==> FormatCriteria(criteria) == NoCriteria
    ensures criteria != [] ==> Split(FormatCriteria(criteria), "\n") == NumberedLines(criteria) + [""]
    ensures ReadCriteria(FormatCriteria(criteria)) == criteria
  {
    if criteria == [] {
      ReadNoCriteria();
    } else {
      NumberedSplit(criteria);
      ReadNumbered(Numbered(criteria), criteria);
      NumberedNotNoCriteria(criteria);
    }
  }

  // ---------------------------------------------------------------------------
  // The JSON part of a reply
  // ---------------------------------------------------------------------------

  const JsonFence := "```json"
  const Fence := "```"

  /**
   * The text handed to `json.loads`: inside a ```json fence, else inside the
   * first plain fence, else all of it. A fenced body comes back stripped.
   */
  function ExtractJson(text: string): (r: string)
    ensures !Contains(text, Fence) && !Contains(text, JsonFence) ==> r == text
    ensures Contains(text, Fence) ==> r == [] || (!IsSpace(r[0]) && !IsSpace(r[|r| - 1]))
  {
    if Contains(text, JsonFence) then
      SplitContains(text, JsonFence);
      Strip(Split(Split(text, JsonFence)[1], Fence)[0])
    else if Contains(text, Fence) then
      SplitContains(text, Fence);
      Strip(Split(Split(text, Fence)[1], Fence)[0])
    else text
  }

  /** A ```json fence around a body, with no other backticks about, gives the stripped body. */
  lemma JsonFenced(pre: string, body: string, post: string)
    requires '`' !in pre && '`' !in body && '`' !in post
    ensures ExtractJson(pre + JsonFence + body + Fence + post) == Strip(body)
  {
    var rest := body + Fence + post;
    assert pre + JsonFence + body + Fence + post == pre + JsonFence + rest;
    FoundAfterFree(pre, JsonFence, rest);
    BodyBeforeFence(body, post);
  }

  /** After a ```json fence, the piece up to the next fence is the body. */
  lemma BodyBeforeFence(body: string, post: string)
    requires '`' !in body && '`' !in post
    ensures Split(Split(body + Fence + post, JsonFence)[0], Fence)[0] == body
  {
    if |post| >= 4 && post[..4] == "json" {
      BodyBeforeJsonFence(body, post);
    } else {
      BodyBeforePlainFence(body, post);
    }
  }

  lemma BodyBeforeJsonFence(body: string, post: string)
    requires '`' !in body && |post| >= 4 && post[..4] == "json"
    ensures Split(Split(body + Fence + post, JsonFence)[0], Fence)[0] == body
  {
    Regroup(body, Fence, "json", post);
    assert Fence + "json" == JsonFence;
    FirstPieceFree(body, JsonFence, post[4..]);
    FirstPieceFree(body, Fence, post);
  }

  lemma BodyBeforePlainFence(body: string, post: string)
    requires '`' !in body && '`' !in post && !(|post| >= 4 && post[..4] == "json")
    ensures Split(Split(body + Fence + post, JsonFence)[0], Fence)[0] == body
  {
    var rest := body + Fence + post;
    forall k ensures !OccursAt(rest, JsonFence, k) {
      FenceStart(rest, body, post, k);
    }
    SplitAbsent(rest, JsonFence);
    FirstPieceFree(body, Fence, post);
  }

  /** The only backticks of `body + "```" + post` are the fence's own. */
  lemma BacktickInFence(rest: string, body: string, post: string, j: int)
    requires rest == body + Fence + post && '`' !in body && '`' !in post
    requires 0 <= j < |rest|
    ensures rest[j] == '`' ==> |body| <= j < |body| + 3
  {
    if j < |body| {
      assert rest[j] == body[j];
    } else if j >= |body| + 3 {
      assert rest[j] == post[j - |body| - 3];
    }
  }

  /** Where a ```json fence could start in `body + "```" + post` when neither part holds a backtick. */
  lemma FenceStart(rest: string, body: string, post: string, k: int)
    requires rest == body + Fence + post && '`' !in body && '`' !in post
    ensures OccursAt(rest, JsonFence, k) ==> k == |body| && |post| >= 4 && post[..4] == "json"
  {
    if OccursAt(rest, JsonFence, k) {
      assert rest[k] == JsonFence[0] && rest[k + 2] == JsonFence[2];
      BacktickInFence(rest, body, post, k);
      BacktickInFence(rest, body, post, k + 2);
      assert post[..4] == rest[k + 3..k + 7];
    }
  }

  /** Without a ```json fence, the text between the first two plain fences, stripped. */
  lemma PlainFenced(pre: string, body: string, post: string)
    requires '`' !in pre && '`' !in body
    requires !Contains(pre + Fence + body + Fence + post, JsonFence)
    ensures ExtractJson(pre + Fence + body + Fence + post) == Strip(body)
  {
    var rest := body + Fence + post;
    assert pre + Fence + body + Fence + post == pre + Fence + rest;
    FoundAfterFree(pre, Fence, rest);
    FirstPieceFree(body, Fence, post);
  }

  /** A reply without any fence is handed over whole. */
  lemma Unfenced(text: string)
    requires !Contains(text, Fence)
    ensures ExtractJson(text) == text
  {
    if Contains(text, JsonFence) {
      ContainsIff(text, JsonFence);
      var k :| OccursAt(text, JsonFence, k);
      assert text[k..k + 3] == text[k..k + 7][..3];
      OccursInContains(text, Fence, k);
    }
  }

  // ---------------------------------------------------------------------------
  // One result per trial
  // ---------------------------------------------------------------------------

  const ParseFailure := "Failed to parse JSON response"

  /**
   * The result record the loop appends for one trial, given the model's reply.
   * Every result carries the trial's id, title and score (defaults "Unknown",
   * "Unknown", 0); it holds an evaluation exactly when the model answered and
   * the answer decoded, and an error otherwise: the exception's message, or
   * the parse failure together with the raw reply.
   */
  function TrialResult(trial: RankedTrial, reply: Reply, decode: string -> Option<seq<Assessment>>): (r: ResultRecord)
    ensures r.trialId.Some? && r.trialTitle.Some? && r.semanticScore.Some?
    ensures trial.trialId.Some? ==> r.trialId == trial.trialId
    ensures trial.trialId.None? ==> r.trialId == Some("Unknown")
    ensures trial.trialTitle.Some? ==> r.trialTitle == trial.trialTitle
    ensures trial.trialTitle.None? ==> r.trialTitle == Some("Unknown")
    ensures trial.semanticScore.Some? ==> r.semanticScore == trial.semanticScore
    ensures trial.semanticScore.None? ==> r.semanticScore == Some(0.0)
    ensures r.evaluation.Some? <==> r.error.None?
    ensures r.evaluation.Some? <==> reply.Replied? && decode(ExtractJson(Strip(reply.content))).Some?
    ensures r.evaluation.Some? ==>
      r.evaluation == decode(ExtractJson(Strip(reply.content))) && r.rawResponse.None?
    ensures reply.Raised? ==> r.error == Some(reply.message) && r.rawResponse.None?
    ensures reply.Replied? && r.evaluation.None? ==>
      r.error == Some(ParseFailure) && r.rawResponse == Some(Strip(reply.content))
  {
    var id := Some(trial.trialId.GetOr("Unknown"));
    var title := Some(trial.trialTitle.GetOr("Unknown"));
    var score := Some(trial.semanticScore.GetOr(0.0));
    match reply
    case Raised(message) => ResultRecord(id, title, score, None, None, Some(message))
    case Replied(content) =>
      var text := Strip(content);
      match decode(ExtractJson(text))
      case Some(evaluation) => ResultRecord(id, title, score, Some(evaluation), None, None)
      case None => ResultRecord(id, title, score, None, Some(text), Some(ParseFailure))
  }

  const DemographicsName := "Patient Demographics: "
  const ConditionsName := "Medical Conditions: "
  const MedicationsName := "Current Medications: "
  const LabsName := "Recent Lab Results: "
  const ProceduresName := "Recent Procedures: "

  /** The headings of the clinical note: each name after a blank line, the first after a single break. */
  const DemographicsLabel := "\n" + DemographicsName
  const ConditionsLabel := "\n\n" + ConditionsName
  const MedicationsLabel := "\n\n" + MedicationsName
  const LabsLabel := "\n\n" + LabsName
  const ProceduresLabel := "\n\n" + ProceduresName

  /**
   * The clinical note of the prompt: it opens with the demographics line
   * ("Not available" when there are none) and ends with a line break.
   */
  function ClinicalNote(info: KeyInfo): (r: string)
    ensures IsPrefix(DemographicsLabel + info.demographicSummary.GetOr("Not available") + ConditionsLabel, r)
    ensures info.procedureSummary.None? ==> IsSuffix(ProceduresLabel + "None recorded\n", r)
    ensures IsSuffix("\n", r)
  {
    var lead := DemographicsLabel + info.demographicSummary.GetOr("Not available")
      + ConditionsLabel + info.conditionSummary.GetOr("None recorded")
      + MedicationsLabel + info.medicationSummary.GetOr("None recorded")
      + LabsLabel + info.labSummary.GetOr("None recorded");
    ConcatAssoc(lead, ProceduresLabel + info.procedureSummary.GetOr("None recorded"), "\n");
    ConcatAssoc(lead, ProceduresLabel, info.procedureSummary.GetOr("None recorded"));
    lead + ProceduresLabel + info.procedureSummary.GetOr("None recorded") + "\n"
  }

  /** A summary that, when present, stays on one line. */
  predicate OneLine(summary: Option<string>)
  {
    summary.Some? ==> '\n' !in summary.value
  }

  /** The lines of the clinical note: a blank line before each labelled line, and one after the last. */
  function NoteLines(info: KeyInfo): seq<string>
  {
    ["", DemographicsName + info.demographicSummary.GetOr("Not available"),
     "", ConditionsName + info.conditionSummary.GetOr("None recorded"),
     "", MedicationsName + info.medicationSummary.GetOr("None recorded"),
     "", LabsName + info.labSummary.GetOr("None recorded"),
     "", ProceduresName + info.procedureSummary.GetOr("None recorded"),
     ""]
  }

  /** Each step of `Join` over a suffix of the lines. */
  lemma JoinStep(lines: seq<string>, k: nat)
    requires k + 1 < |lines|
    ensures Join(lines[k..], "\n") == lines[k] + "\n" + Join(lines[k + 1..], "\n")
  {
    assert lines[k..][1..] == lines[k + 1..];
  }

  /** A labelled line, a blank line and the rest join as the line, two breaks and the rest. */
  lemma SectionStep(lines: seq<string>, k: nat)
    requires k + 2 < |lines| && lines[k + 1] == ""
    ensures Join(lines[k..], "\n") == lines[k] + ("\n\n" + Join(lines[k + 2..], "\n"))
  {
    JoinStep(lines, k);
    JoinStep(lines, k + 1);
    assert "\n" + ("" + "\n" + Join(lines[k + 2..], "\n")) == "\n\n" + Join(lines[k + 2..], "\n");
  }

  /** The last three sections of the note's lines, joined. */
  lemma JoinLastSections(lines: seq<string>, n3: string, v3: string, n4: string, v4: string, n5: string, v5: string)
    requires |lines| == 11 && lines[5] == n3 + v3 && lines[6] == "" && lines[7] == n4 + v4 && lines[8] == ""
    requires lines[9] == n5 + v5 && lines[10] == ""
    ensures Join(lines[5..], "\n") == n3 + v3 + ("\n\n" + (n4 + v4 + ("\n\n" + (n5 + v5 + "\n"))))
  {
    assert lines[10..] == [""];
    JoinStep(lines, 9);
    SectionStep(lines, 7);
    SectionStep(lines, 5);
  }

  /** Five sections, each a name and a value after a blank line, joined by line breaks. */
  lemma {:induction false} JoinSections(lines: seq<string>, n1: string, v1: string, n2: string, v2: string,
                                        n3: string, v3: string, n4: string, v4: string, n5: string, v5: string)
    requires |lines| == 11 && lines[0] == "" && lines[1] == n1 + v1 && lines[2] == "" && lines[3] == n2 + v2
    requires lines[4] == "" && lines[5] == n3 + v3 && lines[6] == "" && lines[7] == n4 + v4 && lines[8] == ""
    requires lines[9] == n5 + v5 && lines[10] == ""
    ensures Join(lines, "\n")
         == ("\n" + n1) + v1 + ("\n\n" + n2) + v2 + ("\n\n" + n3) + v3 + ("\n\n" + n4) + v4 + ("\n\n" + n5) + v5 + "\n"
  {
    JoinLastSections(lines, n3, v3, n4, v4, n5, v5);
    SectionStep(lines, 3);
    SectionStep(lines, 1);
    JoinStep(lines, 0);
    assert lines[0..] == lines;
    SectionsRegrouped(n1, v1, n2, v2, n3, v3, n4, v4, n5, v5);
  }

  /** The right-nested joined form of five sections is the note's left-to-right concatenation. */
  lemma SectionsRegrouped(n1: string, v1: string, n2: string, v2: string, n3: string, v3: string,
                          n4: string, v4: string, n5: string, v5: string)
    ensures "\n" + (n1 + v1 + ("\n\n" + (n2 + v2 + ("\n\n" + (n3 + v3 + ("\n\n" + (n4 + v4 + ("\n\n" + (n5 + v5 + "\n")))))))))
         == ("\n" + n1) + v1 + ("\n\n" + n2) + v2 + ("\n\n" + n3) + v3 + ("\n\n" + n4) + v4 + ("\n\n" + n5) + v5 + "\n"
  {
    var tail4 := n4 + v4 + ("\n\n" + (n5 + v5 + "\n"));
    assert tail4 == n4 + v4 + ("\n\n" + n5) + v5 + "\n";
    var tail3 := n3 + v3 + ("\n\n" + tail4);
    assert tail3 == n3 + v3 + ("\n\n" + n4) + v4 + ("\n\n" + n5) + v5 + "\n";
    var tail2 := n2 + v2 + ("\n\n" + tail3);
    assert tail2 == n2 + v2 + ("\n\n" + n3) + v3 + ("\n\n" + n4) + v4 + ("\n\n" + n5) + v5 + "\n";
  }

  /** The note is its lines joined by line breaks. */
  lemma ClinicalNoteJoin(info: KeyInfo)
    ensures ClinicalNote(info) == Join(NoteLines(info), "\n")
  {
    JoinSections(NoteLines(info), DemographicsName, info.demographicSummary.GetOr("Not available"),
                 ConditionsName, info.conditionSummary.GetOr("None recorded"),
                 MedicationsName, info.medicationSummary.GetOr("None recorded"),
                 LabsName, info.labSummary.GetOr("None recorded"),
                 ProceduresName, info.procedureSummary.GetOr("None recorded"));
  }

  /** A labelled line has no break when neither its name nor its value has one. */
  lemma OneLineJoined(name: string, value: string)
    requires '\n' !in name && '\n' !in value
    ensures '\n' !in name + value
  {
  }

  /** The section names are single-line. */
  lemma NamesUnbroken()
    ensures '\n' !in DemographicsName && '\n' !in ConditionsName && '\n' !in MedicationsName
    ensures '\n' !in LabsName && '\n' !in ProceduresName
  {
  }

  /** No line of the note has a break when no summary has one. */
  lemma NoteLinesUnbroken(info: KeyInfo)
    requires OneLine(info.demographicSummary) && OneLine(info.conditionSummary) && OneLine(info.medicationSummary)
    requires OneLine(info.labSummary) && OneLine(info.procedureSummary)
    ensures forall k :: 0 <= k < |NoteLines(info)| ==> '\n' !in NoteLines(info)[k]
  {
    NamesUnbroken();
    OneLineJoined(DemographicsName, info.demographicSummary.GetOr("Not available"));
    OneLineJoined(ConditionsName, info.conditionSummary.GetOr("None recorded"));
    OneLineJoined(MedicationsName, info.medicationSummary.GetOr("None recorded"));
    OneLineJoined(LabsName, info.labSummary.GetOr("None recorded"));
    OneLineJoined(ProceduresName, info.procedureSummary.GetOr("None recorded"));
  }

  /**
   * Reading the note back: split at its line breaks, it gives the five
   * labelled lines with their values or defaults, each after a blank line,
   * as long as no summary spans several lines.
   */
  lemma ClinicalNoteLines(info: KeyInfo)
    requires OneLine(info.demographicSummary) && OneLine(info.conditionSummary) && OneLine(info.medicationSummary)
    requires OneLine(info.labSummary) && OneLine(info.procedureSummary)
    ensures Split(ClinicalNote(info), "\n") == NoteLines(info)
  {
    NoteLinesUnbroken(info);
    ClinicalNoteJoin(info);
    SplitJoin(NoteLines(info), "\n");
  }

  /**
   * The values the prompt interpolates into its fixed instructions: the
   * clinical note, the current date and the numbered criteria.
   */
  datatype PromptFields = PromptFields(clinicalNote: string, currentDate: string, criteria: string)

  /** What one turn of the loop produces for `trial`. */
  function Evaluation(trial: RankedTrial, note: string, date: string,
                      ask: PromptFields -> Reply, decode: string -> Option<seq<Assessment>>): ResultRecord
  {
    TrialResult(trial, ask(PromptFields(note, date, FormatCriteria(InclusionCriteria(trial)))), decode)
  }

  /** The results of the loop over `trials`, in order. */
  function Evaluations(trials: seq<RankedTrial>, note: string, date: string,
                       ask: PromptFields -> Reply, decode: string -> Option<seq<Assessment>>): (r: seq<ResultRecord>)
    ensures |r| == |trials|
  {
    if trials == [] then []
    else Evaluations(trials[..|trials| - 1], note, date, ask, decode) + [Evaluation(trials[|trials| - 1], note, date, ask, decode)]
  }

  /** The `k`-th result belongs to the `k`-th trial. */
  lemma {:induction false} EvaluationsAt(trials: seq<RankedTrial>, note: string, date: string,
                                         ask: PromptFields -> Reply, decode: string -> Option<seq<Assessment>>, k: nat)
    requires k < |trials|
    ensures Evaluations(trials, note, date, ask, decode)[k] == Evaluation(trials[k], note, date, ask, decode)
    decreases |trials|
  {
    if k < |trials| - 1 {
      var init := trials[..|trials| - 1];
      EvaluationsAt(init, note, date, ask, decode, k);
      assert init[k] == trials[k];
    }
  }

  method EvaluateTrial(trial: RankedTrial, note: string, date: string,
                       ask: PromptFields -> Reply, decode: string -> Option<seq<Assessment>>) returns (r: ResultRecord)
    ensures r == Evaluation(trial, note, date, ask, decode)
  {
    var id := trial.trialId.GetOr("Unknown");
    var title := trial.trialTitle.GetOr("Unknown");
    var criteria := ExtractInclusionCriteria(trial);
    var formatted := FormatInclusionCriteria(criteria);
    var reply := ask(PromptFields(note, date, formatted));
    match reply {
      case Raised(message) =>
        r := ResultRecord(Some(id), Some(title), Some(trial.semanticScore.GetOr(0.0)), None, None, Some(message));
      case Replied(content) =>
        var text := Strip(content);
        var jsonText := ExtractJson(text);
        match decode(jsonText) {
          case Some(evaluation) =>
            r := ResultRecord(Some(id), Some(title), Some(trial.semanticScore.GetOr(0.0)), Some(evaluation), None, None);
          case None =>
            r := ResultRecord(Some(id), Some(title), Some(trial.semanticScore.GetOr(0.0)), None, Some(text), Some(ParseFailure));
        }
    }
  }

  /** The invariant of the trial loop. */
  predicate EvaluatedSoFar(results: seq<ResultRecord>, top: seq<RankedTrial>, i: nat, note: string, date: string,
                           ask: PromptFields -> Reply, decode: string -> Option<seq<Assessment>>)
    requires i <= |top|
  {
    results == Evaluations(top[..i], note, date, ask, decode)
  }

  lemma EvaluatedStep(results: seq<ResultRecord>, r: ResultRecord, top: seq<RankedTrial>, i: nat, note: string, date: string,
                      ask: PromptFields -> Reply, decode: string -> Option<seq<Assessment>>)
    requires i < |top| && EvaluatedSoFar(results, top, i, note, date, ask, decode)
    requires r == Evaluation(top[i], note, date, ask, decode)
    ensures EvaluatedSoFar(results + [r], top, i + 1, note, date, ask, decode)
  {
    var done := top[..i + 1];
    assert done[..i] == top[..i] && done[i] == top[i];
    assert Evaluations(done, note, date, ask, decode)
        == Evaluations(top[..i], note, date, ask, decode) + [Evaluation(top[i], note, date, ask, decode)];
  }

  /** `evaluate_patient_eligibility`: one result per evaluated trial, in order. */
  method EvaluatePatientEligibility(patient: PatientData, matchedTrials: Option<seq<RankedTrial>>, topK: int,
                                    currentDate: string, ask: PromptFields -> Reply,
                                    decode: string -> Option<seq<Assessment>>)
    returns (out: EligibilityResults)
    ensures out.patientId == Some(patient.patientId.GetOr("Unknown"))
    ensures out.evaluationDate == Some(currentDate)
    ensures out.trialsEvaluated == Some(|out.results|)
    ensures out.results == Evaluations(TopTrials(matchedTrials.GetOr([]), topK),
                                       ClinicalNote(patient.keyClinicalInfo.GetOr(KeyInfo(None, None, None, None, None))),
                                       currentDate, ask, decode)
  {
    var ranked := matchedTrials.GetOr([]);
    var top := TakePy(ranked, Min(topK, |ranked|));
    var note := ClinicalNote(patient.keyClinicalInfo.GetOr(KeyInfo(None, None, None, None, None)));
    var results: seq<ResultRecord> := [];
    var i := 0;
    while i < |top|
      invariant 0 <= i <= |top|
      invariant EvaluatedSoFar(results, top, i, note, currentDate, ask, decode)
    {
      var r := EvaluateTrial(top[i], note, currentDate, ask, decode);
      EvaluatedStep(results, r, top, i, note, currentDate, ask, decode);
      results := results + [r];
      i := i + 1;
    }
    assert top[..i] == top;
    out := EligibilityResults(Some(patient.patientId.GetOr("Unknown")), Some(currentDate), Some(|results|), results);
  }
}
