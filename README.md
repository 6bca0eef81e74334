# Clinical-trial matching: a verified Dafny model

This project models the core of a pipeline that matches a patient to clinical trials. The Dafny model states properties of each stage and proves them:

1. **Patient records** (`PatientRecord`). C-CDA patient documents are reduced to entries: conditions, medications, lab results, procedures, vitals and notes. Dates are normalised from `YYYYMMDD` to `YYYY-MM-DD`. Entries without a name are dropped. The age is the number of completed years since birth. The summary row counts each kind of entry and lists the condition and medication names.
2. **Search query and key clinical information** (`QuerySynthesis`, `KeyClinicalInfo`). A natural-language query is built from the demographics, the most recent conditions, the first medications, the abnormal labs, the most recent procedures and the key sentences of the latest assessment/plan note. A fixed sentence is used when nothing applies. A record with one text per clinical aspect is also built.
3. **Structured filter** (`StructuredFilter`). Trials are filtered on the patient's age and sex with a `WHERE` clause built clause by clause. A count without limit is taken beside a capped select. Each row's aggregates are split into conditions and interventions.
4. **Semantic ranking** (`SemanticRanker`). The filtered trials are re-ranked by a vector index. A trial's score is 1 − its distance, and the ranker keeps the index order. When the index gives nothing, every candidate's text is scored, and the candidates are stable-sorted by score, highest first. The first `top_k` are kept.
5. **Eligibility evaluation** (`EligibilityPrompt`). The application builds inclusion criteria for each top trial from its rule fields and numbers them into a prompt. It asks a language model about them. It then shapes the model's fenced JSON reply, or the failure, into a result record.
6. **Report** (`ReportShaping`). The results are grouped into eligible, ineligible and indeterminate trials, each group sorted by score. The rows of the summary, eligible, ineligible and criteria-detail tables are derived from them.
7. **Corpus builders** (`TrialParsing`, `CorpusIngest`, `CorpusConverter`, `VectorDocs`). These turn registry JSON into trial records:
   - they parse age strings;
   - they split the eligibility text into inclusion and exclusion bullets;
   - they set keyword flags;
   - they sample and count files;
   - they convert studies into a simplified corpus line and recover items from a malformed JSON array;
   - they partition the stored trials into batches of documents and metadata for the vector store.

`Strings` and `Sorting` model the Python string operations and the stable reverse sort used by all of the above. `Wrappers` holds the optional values and dictionary entries.

The language model, the embedder, the vector index, `json.loads` and `random.sample` are functions passed in as parameters. Dafny has no view into them: the model states what the program does with whatever they return. The current date is passed in as a parameter too. Several source files exist in two copies, an older one at the repository root and one under `src/`. Each behaviour is modelled once, and the table cites one copy: the `src/` one where it exists, and constructCorpus.py for the converter. The root copies behave the same. temp.py's converter (lines 5-134) is constructCorpus.py's with another default output file name, getTrialDetails.py and findTrialsForPatient.py are identical to their `src/` copies, and the root parseXMLs.py has the same extractors (lines 165-460), date rule (212-216), age arithmetic (104) and summary defaults (489-516), without the clinical notes.

Where the descriptions of the system and the code disagree, the model follows the code:
- The older matcher `src/findTrialsForPatient.py` filters on a `sex` key, but patient records carry `gender`. On a real record that matcher applies no sex filter (`StructuredFilter.RecordHasNoSexFilter`).
- That matcher also returns a bare empty list when the database is missing, where the newer one returns an empty list with a zero count. The Findings section covers this.

## Model

| member | source | states |
|---|---|---|
| PatientRecord.NormalizeDate | src/parseXMLs.py:214-218 | a value of at least 8 characters becomes "YYYY-MM-DD" from its first eight characters, anything beyond them dropped; a shorter one is kept as it is |
| PatientRecord.NormalizeDateOpt | src/parseXMLs.py:212-218 | a date is kept exactly when one was read, normalized |
| PatientRecord.NoteDate | src/parseXMLs.py:499-511 | a note always has a date key; it is null exactly when the section has no effective time, and the normalized value otherwise |
| PatientRecord.VitalDate | src/parseXMLs.py:419-453 | a vital carries a date exactly when the panel's value is non-empty, normalized |
| PatientRecord.AgeIsCompletedYears | src/parseXMLs.py:106 | the age is the number of whole years: the k-th anniversary of the birth date has passed and the (k+1)-th has not |
| PatientRecord.AgeNonNegative | src/parseXMLs.py:106 | a birth date not after today gives a non-negative age |
| PatientRecord.Pad2 | src/parseXMLs.py:108 | two digits that read back as the number |
| PatientRecord.BirthInfo | src/parseXMLs.py:93-110 | no birth fields exactly when there is no non-empty birth value; a value whose slices form a valid date gives its age and "YYYY-MM-DD"; any other keeps the raw value as the birth date |
| PatientRecord.BirthInfoDigits | src/parseXMLs.py:99-108 | eight digits forming a valid date give that date's age and text |
| PatientRecord.PatientId | src/parseXMLs.py:53-67 | the id element's extension, or "unknown" when the element or the attribute is missing |
| PatientRecord.Retained | src/parseXMLs.py:220-221 | never more entries than read; every kept entry passes the keep rule, and an entry is kept exactly when it is the normalized form of a read entry that passes |
| PatientRecord.RetainEntries | src/parseXMLs.py:167-222 | the entry loop keeps exactly the specified entries |
| PatientRecord.ExtractConditions | src/parseXMLs.py:167-227 | every condition kept has a non-empty name, and every named condition read is kept, its onset normalized |
| PatientRecord.ExtractMedications | src/parseXMLs.py:228-289 | every medication kept has a non-empty name, and every named one read is kept, its start date normalized |
| PatientRecord.ExtractLabResults | src/parseXMLs.py:290-356 | every lab kept has a non-empty name and a value key, and every such lab is kept, its date normalized |
| PatientRecord.ExtractProcedures | src/parseXMLs.py:357-400 | every procedure kept has a non-empty name, and every named one is kept, its date normalized |
| PatientRecord.ExtractVitals | src/parseXMLs.py:401-463 | every vital kept has a non-empty name and a value key, and every such vital is kept as read |
| PatientRecord.CellOf | src/parseXMLs.py:643-646 | a missing key shows as "Unknown", a null one as None, a present one as its value |
| PatientRecord.FilledNames | src/parseXMLs.py:653-654 | never more names than entries, only non-empty names, and none exactly when no entry has a non-empty name |
| PatientRecord.FilledNamesInOrder | src/parseXMLs.py:653-654 | the names are exactly the non-empty names of the entries, in their order: each is the name of an entry, at strictly increasing positions, and every entry with a non-empty name contributes one |
| PatientRecord.JoinNonEmpty | src/parseXMLs.py:653-654 | joining non-empty names is empty exactly when there are none |
| PatientRecord.SummaryOf | src/parseXMLs.py:641-655 | each summary column: the id, the demographic cells, the five counts and the joined names |
| PatientRecord.SummaryConditionsEmpty | src/parseXMLs.py:653 | the conditions column is empty exactly when no condition has a non-empty name |
| PatientRecord.SummaryMedicationsEmpty | src/parseXMLs.py:654 | the medications column is empty exactly when no medication has a non-empty name |
| PatientRecord.CreatePatientSummary | src/parseXMLs.py:629-658 | one summary row per patient, in order, with the notes count |
| StructuredFilter.FromRecord | src/findTrialsForPatient.py:25-28 | the older matcher reads the age and a `sex` key, which parsed patient records never hold |
| StructuredFilter.MapSex | src/findTrialsByChroma.py:41-50 | "M" and "Male" map to MALE, "F" and "Female" to FEMALE, anything else to no value |
| StructuredFilter.BuildWhere | src/findTrialsByChroma.py:74-86 | the clauses appended to the query are exactly the specified ones |
| StructuredFilter.WhereClausesMeaning | src/findTrialsByChroma.py:76-86 | a trial satisfies the clauses exactly when its age bounds are null or admit the patient's age (when known) and its sex is the mapped sex or ALL (when mapped) |
| StructuredFilter.UnmappedSexNoFilter | src/findTrialsByChroma.py:83-86 | a gender outside the mapping filters nothing by sex |
| StructuredFilter.UnknownAgeNoFilter | src/findTrialsByChroma.py:76-81 | an unknown age filters nothing by age |
| StructuredFilter.Matching | src/findTrialsByChroma.py:66-90 | the matching trials are exactly the rows that satisfy the clauses |
| StructuredFilter.LimitedCount | src/findTrialsByChroma.py:132-133 | a LIMIT never yields more rows than match, nor more than the limit when it is non-negative; a negative or large limit keeps them all |
| StructuredFilter.FetchedRowsPass | src/findTrialsByChroma.py:112-137 | every fetched row is a table row passing the filter, there are no more than the count query reports, and the limit bounds them as SQLite does |
| StructuredFilter.SplitAggregate | src/findTrialsByChroma.py:144-148 | an empty or null aggregate gives no pieces; otherwise the pieces rejoined at ',' give it back |
| StructuredFilter.Wrap | src/findTrialsByChroma.py:150-154 | one intervention record per piece, holding that piece |
| StructuredFilter.UnwrapWrap | src/findTrialsByChroma.py:150-154 | unwrapping the intervention records gives back the pieces |
| StructuredFilter.ProcessedRoundTrip | src/findTrialsByChroma.py:144-156 | for non-empty aggregates, the processed lists rejoined at ',' give back the database strings |
| StructuredFilter.ProcessRows | src/findTrialsByChroma.py:139-158 | one processed match per fetched row, in order |
| StructuredFilter.RunQueries | src/findTrialsByChroma.py:88-158 | the total is the number of matching trials, and the matches are the processed fetched rows |
| StructuredFilter.MatchPatientToTrials | src/findTrialsByChroma.py:17-163 | a missing database gives ([], 0); otherwise the total of matching trials and the processed fetched rows |
| StructuredFilter.MatchPatientToTrialsBySex | src/findTrialsForPatient.py:7-153 | a missing database gives a bare empty list; otherwise the same pair as the newer matcher, filtered on the `sex` key |
| StructuredFilter.RecordHasNoSexFilter | src/findTrialsForPatient.py:27-40 | for a parsed patient record the older matcher never filters by sex, only by age when it is known |
| StructuredFilter.UnpackAsWritten | src/findTrialsForPatient.py:187 | unpacking the result into two names fails exactly when the matcher returned its bare empty list |
| StructuredFilter.ParseAndMatchAsWritten | src/findTrialsForPatient.py:170-187 | a patient file that fails to parse stops early; otherwise the unpacking as written decides the outcome |
| StructuredFilter.MissingDatabaseCrashesScript | src/findTrialsForPatient.py:187 | with a missing database the script as written fails at the unpacking |
| StructuredFilter.MissingAsEmptyPair | src/findTrialsForPatient.py:20-22 | the corrected matcher always returns a pair, ([], 0) for a missing database |
| StructuredFilter.ParseAndMatch | src/findTrialsForPatient.py:155-201 | the corrected script never fails at the unpacking, and saves no trials for a missing database |
| SemanticRanker.Candidate.constructor | src/findTrialsByChroma.py:139-158 | a candidate holds the matched trial's id, title and conditions, and no score yet |
| SemanticRanker.Candidate.Text | src/findTrialsByChroma.py:315 | the fallback text starts with the title and a space; with no conditions it is just that, and otherwise the rest splits at spaces back into the conditions when none of them contains a space |
| SemanticRanker.SearchQuery | src/findTrialsByChroma.py:214-220 | a stored query is used as it is; otherwise the query built from the patient record |
| SemanticRanker.Ids | src/findTrialsByChroma.py:182 | one id per candidate, in order |
| SemanticRanker.ManualFilter | src/findTrialsByChroma.py:248-260 | keeps exactly the unfiltered hits whose id is a candidate's, in order |
| SemanticRanker.FilterHits | src/findTrialsByChroma.py:248-260 | the loop keeps exactly the specified hits |
| SemanticRanker.Retrieve | src/findTrialsByChroma.py:224-276 | the query phase yields exactly the specified result: the filtered query, else the unfiltered retry filtered by hand, else the alternative query after an error |
| SemanticRanker.RetrievedRetryOnCandidates | src/findTrialsByChroma.py:237-261 | when the filtered query finds nothing and the retry does, the hits used are exactly the retry's hits on candidates |
| SemanticRanker.LastIndex | src/findTrialsByChroma.py:281 | the id lookup finds the last candidate with that id, or none exactly when no candidate has it |
| SemanticRanker.Entries | src/findTrialsByChroma.py:284-290 | never more ranked entries than hits, each naming a candidate |
| SemanticRanker.Pick | src/findTrialsByChroma.py:284-290 | one candidate per entry, the one it names |
| SemanticRanker.ScoreHits | src/findTrialsByChroma.py:283-290 | the ranked list is the candidates of the hits, in hit order, and each candidate's score is the one its last hit set, others unchanged |
| SemanticRanker.RankedFollowIndexOrder | src/findTrialsByChroma.py:285-290 | the ranked ids are the hit ids that are candidates, in the store's order |
| SemanticRanker.EntriesFromHits | src/findTrialsByChroma.py:285-289 | every ranked entry's score is 1 minus the distance of a hit on that candidate |
| SemanticRanker.RankedScoresFinal | src/findTrialsByChroma.py:286-289 | with distinct hit ids, every ranked candidate ends with exactly its entry's score |
| SemanticRanker.FirstFailure | src/findTrialsByChroma.py:313-323 | the candidates before it all get a similarity; the one at it, if any, does not |
| SemanticRanker.ScoreAll | src/findTrialsByChroma.py:313-323 | scoring succeeds exactly when every candidate gets a similarity; the candidates scored before a failure keep their new score, the rest their old one |
| SemanticRanker.TopK | src/findTrialsByChroma.py:294-296 | a positive top_k keeps the first min(top_k, n); none or a non-positive one keeps all; the result is always a prefix |
| SemanticRanker.FallbackOrder | src/findTrialsByChroma.py:326 | the fallback order is by decreasing score, a permutation, and stable among equal scores |
| SemanticRanker.RankFallback | src/findTrialsByChroma.py:303-338 | the fallback either ranks all candidates by similarity and cuts to top_k, or, when a similarity fails, returns the candidates unranked with the scores set so far |
| SemanticRanker.RankMatchedTrials | src/findTrialsByChroma.py:165-338 | an empty input, a missing or unopenable collection return the input unscored; store hits rank the candidates in hit order; otherwise the fallback decides |
| QuerySynthesis.DemographicParts | src/parseXMLs.py:673-690 | one phrase at most: "<age>-year-old male/female patient" when the age is truthy and the gender is M/F, "<age>-year-old patient" for any other gender, "Male patient"/"Female patient" without a truthy age, nothing otherwise |
| QuerySynthesis.NamedConditions | src/parseXMLs.py:697 | keeps exactly the conditions whose name is present and non-empty |
| QuerySynthesis.NamedProcedures | src/parseXMLs.py:754 | keeps exactly the procedures whose name is present and non-empty |
| QuerySynthesis.NamesOf | src/parseXMLs.py:702 | one name per entry, position by position: the entry's name, "" when it has none |
| QuerySynthesis.ConditionParts | src/parseXMLs.py:693-708 | no phrase when no condition is named; "diagnosed with X" for one name; for two or three, "diagnosed with " then all names but the last joined by ", ", then " and " and the last, newest first |
| QuerySynthesis.ConditionPartsPresent | src/parseXMLs.py:694-705 | the conditions phrase appears exactly when some condition has a non-empty name |
| QuerySynthesis.ConditionsMostRecent | src/parseXMLs.py:696-702 | exactly min(3, #named) conditions are named, each is a named input condition, and no named condition left out has a later onset than one named |
| QuerySynthesis.ProcedureParts | src/parseXMLs.py:750-765 | at most two names; no phrase when none; "underwent X" for one name and "underwent X and Y" for two, newest first |
| QuerySynthesis.ProceduresMostRecent | src/parseXMLs.py:753-759 | exactly min(2, #named) procedures are named, each is a named input procedure, and none left out is more recent than one named |
| QuerySynthesis.MedicationNamesFirst3 | src/parseXMLs.py:713 | at most three names, and none exactly when none of the first three entries has a non-empty name |
| QuerySynthesis.MedicationsFirst3InOrder | src/parseXMLs.py:713 | the names are those of the named entries among the first three, in list order, none skipped |
| QuerySynthesis.MedicationsFromFirst3 | src/parseXMLs.py:713 | every named medication is a non-empty name of one of the first three entries |
| QuerySynthesis.MedicationParts | src/parseXMLs.py:711-719 | no phrase when none of the first three medications is named; "currently taking X" for one name; for two or three, "currently taking " then all names but the last joined by ", ", then " and " and the last, in list order |
| QuerySynthesis.RangeBounds | src/parseXMLs.py:733-737 | bounds are read only from a reference range that holds a '-' |
| QuerySynthesis.AbnormalEntries | src/parseXMLs.py:725-741 | never more abnormal labs than labs |
| QuerySynthesis.AbnormalEntriesExact | src/parseXMLs.py:725-743 | a lab is listed exactly when it is in the input and lies outside its readable reference range |
| QuerySynthesis.LabTexts | src/parseXMLs.py:741 | the text of each lab is "name value unit", one per lab |
| QuerySynthesis.AbnormalLabs | src/parseXMLs.py:723-743 | one text per abnormal lab |
| QuerySynthesis.LabParts | src/parseXMLs.py:745-747 | the "with abnormal" phrase appears exactly when one or two labs are abnormal, and joins their texts with " and " |
| QuerySynthesis.AbnormalAboveRange | src/parseXMLs.py:740 | a value above a "3-5" range is abnormal |
| QuerySynthesis.NormalInsideRange | src/parseXMLs.py:740 | a value inside its range is not abnormal |
| QuerySynthesis.UnreadableValueSkipped | src/parseXMLs.py:742-743 | a value that is not a number is silently skipped |
| QuerySynthesis.RangeExample | src/parseXMLs.py:735-737 | "3-5" reads as the bounds 3 and 5 |
| QuerySynthesis.AssessmentNotes | src/parseXMLs.py:771-773 | keeps exactly the notes whose type mentions "Assessment" or "Plan" |
| QuerySynthesis.LatestAssessment | src/parseXMLs.py:775-777 | there is a latest assessment note exactly when there is an assessment note |
| QuerySynthesis.LatestAssessmentIsNewest | src/parseXMLs.py:777 | the chosen note is an assessment note, no assessment note has a later date, and it is the first in input order among those with its date |
| QuerySynthesis.RelevantSentences | src/parseXMLs.py:789-794 | never more sentences kept than pieces |
| QuerySynthesis.RelevantSentencesExact | src/parseXMLs.py:789-794 | a sentence is kept exactly when it is a stripped piece that is non-empty, shorter than 100 characters and names an important term |
| QuerySynthesis.NotePhrases | src/parseXMLs.py:798-799 | one "note: " phrase per sentence, in order |
| QuerySynthesis.NoteSentences | src/parseXMLs.py:775-799 | at most two sentences, none without an assessment note |
| QuerySynthesis.NoteParts | src/parseXMLs.py:796-799 | at most two note phrases |
| QuerySynthesis.NoteSentencesFromLatest | src/parseXMLs.py:778-799 | every quoted sentence is relevant and is a whole stripped sentence of the latest assessment note |
| QuerySynthesis.PartsStartApart | src/parseXMLs.py:670-799 | no phrase is empty or begins with 'p' |
| QuerySynthesis.QueryFallbackIff | src/parseXMLs.py:802-805 | the fallback sentence is returned exactly when no phrase applies |
| QuerySynthesis.EmptyPatientFallback | src/parseXMLs.py:802-805 | a patient with no data gets the fallback sentence |
| QuerySynthesis.CollectAbnormalLabs | src/parseXMLs.py:722-743 | the loop gathers exactly the abnormal lab texts |
| QuerySynthesis.CollectRelevantSentences | src/parseXMLs.py:786-794 | the loop keeps exactly the relevant sentences of the split content |
| QuerySynthesis.AppendNotePhrases | src/parseXMLs.py:798-799 | the loop appends one "note: " phrase per kept sentence |
| QuerySynthesis.CollectQueryParts | src/parseXMLs.py:670-799 | collects the phrases in their fixed order: demographics, conditions, medications, labs, procedures, notes |
| QuerySynthesis.GenerateSemanticSearchQuery | src/parseXMLs.py:660-805 | the phrases joined by spaces; the fallback sentence exactly when there are no phrases |
| KeyClinicalInfo.GenderName | src/parseXMLs.py:836-837 | "M" shows as "Male", "F" as "Female", a null gender as "None" |
| KeyClinicalInfo.DemographicItems | src/parseXMLs.py:828-847 | at most four items; none exactly when age, gender, race and ethnicity are all missing |
| KeyClinicalInfo.NoneGenderShown | src/parseXMLs.py:835-838 | a gender key holding null still yields "Gender: None" |
| KeyClinicalInfo.Truncated | src/parseXMLs.py:964 | content of at most 200 characters is kept whole; longer content keeps its first 200 characters plus "..." |
| KeyClinicalInfo.NoteItemBounded | src/parseXMLs.py:964 | a shown note content never exceeds 203 characters |
| KeyClinicalInfo.Items | src/parseXMLs.py:874-882 | never more items than entries; one per entry when every entry is kept |
| KeyClinicalInfo.CollectItems | src/parseXMLs.py:859-866 | the item loop builds exactly the item list of its entries |
| KeyClinicalInfo.AbnormalItems | src/parseXMLs.py:905-914 | one abnormal item per abnormal lab |
| KeyClinicalInfo.LabsPartitioned | src/parseXMLs.py:892-920 | every lab with a name and value lands in exactly one of the two lists |
| KeyClinicalInfo.ClassifyLabs | src/parseXMLs.py:889-920 | the loop builds exactly the abnormal and normal item lists |
| KeyClinicalInfo.LabSummaryItems | src/parseXMLs.py:923 | all abnormal items first, then normal items up to five in total |
| KeyClinicalInfo.AbnormalAgreement | src/parseXMLs.py:905-914 | the summary flags as abnormal exactly as many labs as the query does |
| KeyClinicalInfo.ContentNotes | src/parseXMLs.py:952 | keeps exactly the notes with non-empty content |
| KeyClinicalInfo.RecentNotes | src/parseXMLs.py:948-958 | at most three notes, each a note of the patient with content |
| KeyClinicalInfo.RecentNotesAreNewest | src/parseXMLs.py:951-958 | no note with content that is left out is newer than one shown |
| KeyClinicalInfo.ExtractKeyClinicalInfo | src/parseXMLs.py:807-979 | the seven summaries, with the search query equal to the one the query builder returns |
| KeyClinicalInfo.KeyClinicalInfoOf | src/parseXMLs.py:817-974 | a part with nothing to report keeps the empty default summary: no demographic items, no conditions, medications, labs, procedures or notes |
| TrialParsing.FirstDigit | src/createCorpusDB.py:97 | the position of the first digit at or after i, or the end when there is none |
| TrialParsing.ParseAge | src/createCorpusDB.py:84-100 | no age exactly when the text holds no digit (the empty text included) |
| TrialParsing.ParseAgeOfRendering | src/createCorpusDB.py:97-99 | a number followed by a unit that does not start with a digit reads back as that number |
| TrialParsing.ParseAgeYears | src/createCorpusDB.py:94-100 | "40 Years" reads as 40; "N/A" and "" read as no age |
| TrialParsing.NextMarker | src/createCorpusDB.py:116 | the first position at or after i where "Inclusion Criteria:" or "Exclusion Criteria:" starts, or none when no marker follows |
| TrialParsing.SplitMarkers | src/createCorpusDB.py:116 | the split always yields at least one piece |
| TrialParsing.SplitMarkersPieces | src/createCorpusDB.py:116 | no piece holds a marker, and there is a single piece exactly when the text holds no marker |
| TrialParsing.SplitAtMarker | src/createCorpusDB.py:116 | text before a marker becomes its own piece and the split resumes after the marker |
| TrialParsing.SplitAtStart | src/createCorpusDB.py:116 | a text starting with a marker yields an empty first piece |
| TrialParsing.NoColonSplit | src/createCorpusDB.py:116 | a text without ':' is one piece |
| TrialParsing.InclusionCutIsIdle | src/createCorpusDB.py:121-123 | the cut at "Exclusion Criteria:" never changes a split piece, since no piece holds the marker |
| TrialParsing.NextNewline | src/createCorpusDB.py:126 | the position of the next newline at or after i, or the end |
| TrialParsing.GroupStart | src/createCorpusDB.py:126 | the latest start after the '*', at or before the given one, from which the item reaches a newline the lookahead accepts; none when no start works |
| TrialParsing.FindBullets | src/createCorpusDB.py:126 | no bullet item spans a newline |
| TrialParsing.StripAll | src/createCorpusDB.py:126 | every item is stripped, position by position |
| TrialParsing.Bullets | src/createCorpusDB.py:126 | the stripped bullet items, none holding a newline |
| TrialParsing.BulletsAtMostStars | src/createCorpusDB.py:126 | never more bullet items than '*' characters |
| TrialParsing.OneBullet | src/createCorpusDB.py:126 | a single "* item" line yields exactly that item |
| TrialParsing.InclusionExclusion | src/createCorpusDB.py:102-135 | both lists are empty with fewer than two pieces; the exclusion list is empty with fewer than three |
| TrialParsing.InclusionExclusionPieces | src/createCorpusDB.py:118-133 | the inclusion list is the bullets of the second piece, the exclusion list those of the third, and a text with no marker yields two empty lists |
| TrialParsing.InclusionExclusionExample | src/createCorpusDB.py:102-135 | a text with one inclusion and one exclusion bullet yields exactly those two items |
| TrialParsing.FlagsOf | src/createCorpusDB.py:147-189 | every flag set is true |
| TrialParsing.FlagsOfKeys | src/createCorpusDB.py:147-189 | a flag is set exactly when one of its rules matches the text |
| TrialParsing.FillFlags | src/createCorpusDB.py:147-189 | the rule-by-rule loop builds exactly the flag map of the rules |
| TrialParsing.ExtractAdditionalCriteria | src/createCorpusDB.py:137-189 | the flags of the ten eligibility-text rules |
| TrialParsing.ExtractCriteriaFromSummary | src/createCorpusDB.py:191-216 | the flags of the four summary rules |
| TrialParsing.MergeFlags | src/createCorpusDB.py:70 | `update` keeps every key of both maps, and the summary's value wins on a shared key |
| TrialParsing.MergedFlagsTrue | src/createCorpusDB.py:66-70 | every merged flag is true |
| TrialParsing.DsmCaseSensitive | src/createCorpusDB.py:150 | the DSM-5 check is case-sensitive |
| TrialParsing.TestsFoldCase | src/createCorpusDB.py:166 | the tests rule ignores case |
| CorpusIngest.InterventionsOf | src/createCorpusDB.py:48-54 | one intervention per entry, its type and name defaulting to "" |
| CorpusIngest.ParseTrialFields | src/createCorpusDB.py:8-82 | every field of the parsed record is the registry field or its default: "" for texts, no age for a missing age text, false for healthy volunteers, [] for lists and 0 for the enrollment count; the criteria lists come from the eligibility text and the flags from the eligibility text and the summary |
| CorpusIngest.EmptyTrialDefaults | src/createCorpusDB.py:19-63 | a trial without any section parses to the all-default record |
| CorpusIngest.RenderedAgesRead | src/createCorpusDB.py:32-33 | ages rendered as "<n> Years" parse back to n |
| CorpusIngest.ParsedFlags | src/createCorpusDB.py:66-70 | every flag is true, and a flag is present exactly when the eligibility text or the summary sets it |
| CorpusIngest.CountSucceeded | src/createCorpusDB.py:441-446 | never more processed trials than sampled ones |
| CorpusIngest.ProgressInterval | src/createCorpusDB.py:449 | min(100, max(1, sample_size // 10)): between 1 and 100, 100 from 1000 on, 1 below 20 |
| CorpusIngest.Reports | src/createCorpusDB.py:448-451 | progress is reported only at 1-based positions within the sample that are multiples of the interval |
| CorpusIngest.ProcessSampled | src/createCorpusDB.py:441-453 | the loop counts exactly the trials that parse and insert, and reports exactly at the specified positions |
| CorpusIngest.ProcessJsonFile | src/createCorpusDB.py:407-469 | (total, processed) is (length, successes) for a list, (1, 0 or 1) for a single trial and (0, 0) for an unreadable file; reports as the loop makes them |
| CorpusIngest.ProcessedBounded | src/createCorpusDB.py:424-469 | processed never exceeds total, and a list is sampled down to min(length, sample_size) trials |
| CorpusIngest.SampledFromFile | src/createCorpusDB.py:434-438 | the trials processed are drawn from the file |
| CorpusIngest.AllSucceedCounted | src/createCorpusDB.py:441-446 | when every trial parses and inserts, all of them are counted |
| CorpusIngest.ParseAllErrorSticks | src/getTrialDetails.py:225-241 | once an element fails, the whole list yields that error |
| CorpusIngest.ParseAllRecords | src/getTrialDetails.py:232-235 | a list of well-formed trials yields one parsed record per trial, in order |
| CorpusIngest.ParseAllFirstError | src/getTrialDetails.py:232-241 | the error returned is that of the first malformed trial |
| CorpusIngest.ParseEach | src/getTrialDetails.py:232-235 | the loop computes exactly the list's result |
| CorpusIngest.ParseTrialFile | src/getTrialDetails.py:215-241 | the records of a list or single-trial document, or one error record |
| CorpusConverter.KnownFixes | constructCorpus.py:36-56 | a text holding none of the four known defects is left unchanged |
| CorpusConverter.SplitSections | constructCorpus.py:58-68 | no inclusion heading gives two empty sections; otherwise the inclusion section starts "inclusion criteria: ", and a non-empty exclusion section starts ": " |
| CorpusConverter.SectionsOfLayout | constructCorpus.py:62-68 | for "pre Inclusion Criteria: a Exclusion Criteria: b" without other colons, the sections are "inclusion criteria: " + strip(a) and ": " + strip(b) |
| CorpusConverter.NumberedItemEnd | constructCorpus.py:73 | a match of the numbered-item pattern at p ends after p and within the text |
| CorpusConverter.NoDotUnchanged | constructCorpus.py:73 | a text without '.' is not rewritten |
| CorpusConverter.NoNumberLeft | constructCorpus.py:73 | after the rewrite no digit is directly followed by '.', and a rewritten text starts with '.' only when the input did |
| CorpusConverter.RewriteNumbered | constructCorpus.py:73 | after the rewrite no digit is directly followed by '.', and a text without '.' is kept as it is |
| CorpusConverter.FormatInclusion | constructCorpus.py:71-75 | empty inclusion text stays empty and only it gives an empty result; other text ends in " \n\n " after a rewritten body with no numbered item left |
| CorpusConverter.DigitDotMatches | constructCorpus.py:73 | every digit followed by '.' starts a numbered item |
| CorpusConverter.Unescape | constructCorpus.py:83-84 | each "\\>" loses its backslash, one character per occurrence, and a text without one is unchanged |
| CorpusConverter.DrugNames | constructCorpus.py:87-91 | never more drug names than interventions, none when no intervention is a drug |
| CorpusConverter.DrugNamesMembers | constructCorpus.py:89-91 | a name is listed exactly when some intervention of type DRUG carries it (a missing name as "") |
| CorpusConverter.CollectDrugs | constructCorpus.py:86-91 | the loop collects exactly the drug names; a missing interventions key gives none |
| CorpusConverter.PhaseOf | constructCorpus.py:120-128 | a missing or empty phases list gives "" |
| CorpusConverter.OnePhase | constructCorpus.py:125-127 | a single "PHASE<d>" reads as "Phase <d>" |
| CorpusConverter.TwoPhases | constructCorpus.py:125-127 | two phases read as "Phase <d1>, Phase <d2>" |
| CorpusConverter.ConvertStudy | constructCorpus.py:5-134 | the simplified record: id, title and summary from the study, criteria fixed, split, renumbered and unescaped, the text field built from them, the drug names, conditions and phase; the drugs and diseases fields are the Python list texts of the drug names and the conditions |
| CorpusConverter.TrimArray | constructCorpus.py:172-179 | trimming never lengthens the content |
| CorpusConverter.TrimBrackets | constructCorpus.py:172-179 | "[" + body + "]" trims to body |
| CorpusConverter.RepairItem | constructCorpus.py:185-188 | every repaired item starts with '{' and ends with '}', and an item that already does is unchanged |
| CorpusConverter.RepairAll | constructCorpus.py:183-188 | one repaired item per piece, in order |
| CorpusConverter.RecoverItems | constructCorpus.py:169-188 | the line-by-line loop yields at least one item, each braced, exactly the recovered list |
| CorpusConverter.SplitJoinedObjects | constructCorpus.py:182 | splitting the comma-joined objects at "}," cuts each object's closing brace |
| CorpusConverter.RepairCut | constructCorpus.py:187-188 | repairing a cut object restores it |
| CorpusConverter.RecoverArray | constructCorpus.py:164-188 | an array of objects, none holding "}," or ending early, is recovered object for object |
| VectorDocs.TrialIds | src/createVectorDB.py:76-77 | one id per trials row, in table order |
| VectorDocs.LookupTrial | src/createVectorDB.py:90-98 | a row found carries the id asked for; none is found only when no row has that id |
| VectorDocs.ListedTrialFound | src/createVectorDB.py:95-98 | a listed id is always found, so the skip never fires for it |
| VectorDocs.TextsFor | src/createVectorDB.py:101-117 | never more texts than rows |
| VectorDocs.TextsForMembers | src/createVectorDB.py:101-117 | a text is gathered for a trial exactly when a row keyed by that trial holds it |
| VectorDocs.InterventionsFor | src/createVectorDB.py:105-109 | never more intervention texts than rows |
| VectorDocs.InterventionsForMembers | src/createVectorDB.py:105-109 | a text is listed exactly when some row of that trial shows as it, "type: name" |
| VectorDocs.AgeText | src/createVectorDB.py:123 | a positive age shows as digits that read back as the age |
| VectorDocs.AgeTextMeaning | src/createVectorDB.py:123 | an age shows as "N/A" exactly when it is null or 0 |
| VectorDocs.DocumentLines | src/createVectorDB.py:120-131 | a document has exactly ten labelled lines |
| VectorDocs.DocumentLinesBack | src/createVectorDB.py:120-131 | when no field holds a newline, splitting the document at newlines gives back its ten lines |
| VectorDocs.TrialDocument | src/createVectorDB.py:120-131 | the document opens with the "Trial ID: " line and its line break |
| VectorDocs.StoredMetadata | src/createVectorDB.py:134-144 | id, title and sex copied, healthy volunteers exactly when the column is 1, a null count as 0, and the two list lengths |
| VectorDocs.MetadataAgeWindow | src/createVectorDB.py:137-138 | the -1 and 999 defaults make a null bound accept every age from 0 to 999 |
| VectorDocs.Entry | src/createVectorDB.py:88-148 | an entry exists exactly when the trial is found, and it carries that trial's id |
| VectorDocs.KeptIds | src/createVectorDB.py:97-98 | never more ids kept than asked for |
| VectorDocs.BatchOf | src/createVectorDB.py:81-148 | the three lists have one element per kept id |
| VectorDocs.BatchEntries | src/createVectorDB.py:146-148 | each document and metadata belongs to its id |
| VectorDocs.BuildBatch | src/createVectorDB.py:82-148 | the per-id loop builds exactly the batch of its ids |
| VectorDocs.ListedIdsKept | src/createVectorDB.py:88-98 | ids all listed in the trials table are all kept |
| VectorDocs.SlicesCover | src/createVectorDB.py:80-81 | the batches put back together give every id once, in order |
| VectorDocs.SlicesShape | src/createVectorDB.py:80-81 | every batch but the last holds exactly batch_size ids, and none is empty |
| VectorDocs.SlicesCount | src/createVectorDB.py:80-86 | the number of batches is the ceiling the progress line reports |
| VectorDocs.ReportedTotalIsSliceCount | src/createVectorDB.py:86 | (total + batch_size - 1) // batch_size counts the batches |
| VectorDocs.AddedBatches | src/createVectorDB.py:151-156 | never more batches added than slices |
| VectorDocs.AddedBatchesNonEmpty | src/createVectorDB.py:151 | no empty batch is added |
| VectorDocs.AddedIds | src/createVectorDB.py:80-156 | the ids added, batch after batch, are exactly those kept from all slices |
| VectorDocs.EveryTrialIndexed | src/createVectorDB.py:9-160 | with a trials table and a positive batch size, every trial id is added once, in table order |
| VectorDocs.CreateCorpusDb | src/createVectorDB.py:9-160 | a missing file, a database without tables and one without a trials table each end before indexing; a zero batch size is an error, a negative one adds nothing, and a positive one adds the non-empty batches of the id slices |
| VectorDocs.IndexBatches | src/createVectorDB.py:80-157 | the batch loop adds exactly the non-empty batches of the slices |
| VectorDocs.AddSlice | src/createVectorDB.py:81-157 | one batch step keeps the loop's progress invariant |
| VectorDocs.StepBatches | src/createVectorDB.py:80-157 | one batch step advances the added list by exactly that slice's batch |
| EligibilityPrompt.TopTrials | src/evaluatePatientEligibility.py:51 | the trials evaluated are a prefix of the ranking, min(top_k, n) long for a non-negative top_k and n + top_k long (at least 0) for a negative one |
| EligibilityPrompt.ClinicalNote | src/evaluatePatientEligibility.py:63-73 | the note opens with the demographics line ("Not available" when missing) followed by the conditions label, ends with a line break, and with no procedure summary ends in "None recorded" |
| EligibilityPrompt.ClinicalNoteJoin | src/evaluatePatientEligibility.py:63-73 | the note is its eleven lines joined by line breaks: a blank line before each of the five labelled lines, and one after the last |
| EligibilityPrompt.ClinicalNoteLines | src/evaluatePatientEligibility.py:63-73 | when no summary spans lines, splitting the note at its line breaks gives back the five labelled lines, each with its summary or its default ("Not available" for demographics, "None recorded" otherwise) |
| EligibilityPrompt.InclusionCriteria | src/evaluatePatientEligibility.py:180-227 | a trial always yields at least two criteria |
| EligibilityPrompt.ExtractInclusionCriteria | src/evaluatePatientEligibility.py:180-227 | the loop over interventions builds exactly the specified criteria list |
| EligibilityPrompt.InterventionStep | src/evaluatePatientEligibility.py:215-220 | one intervention step keeps the loop's invariant |
| EligibilityPrompt.ReadBetween | src/evaluatePatientEligibility.py:195 | a "between a and b" criterion reads back as both bounds |
| EligibilityPrompt.ReadAtLeast | src/evaluatePatientEligibility.py:197 | an "at least a" criterion reads back as a lower bound only |
| EligibilityPrompt.ReadNoMoreThan | src/evaluatePatientEligibility.py:199 | a "no more than b" criterion reads back as an upper bound only |
| EligibilityPrompt.AgeCriterionRoundTrip | src/evaluatePatientEligibility.py:192-199 | at most one age criterion, none exactly when both bounds are missing, and it reads back as the two bounds |
| EligibilityPrompt.ConditionsRoundTrip | src/evaluatePatientEligibility.py:209-211 | a conditions criterion appears exactly when there are conditions, and splitting its list at ", " gives them back |
| EligibilityPrompt.InterventionCriteriaSound | src/evaluatePatientEligibility.py:214-220 | every intervention criterion comes from some intervention's text |
| EligibilityPrompt.InterventionCriteriaComplete | src/evaluatePatientEligibility.py:217-220 | every intervention whose text mentions "Drug" or "Procedure" yields exactly one criterion, which is listed |
| EligibilityPrompt.RuleCriteriaLabelled | src/evaluatePatientEligibility.py:191-220 | every rule-derived criterion opens "Patient must be " (or "Patient must have one of the following conditions: "), and its characters 16 and 17 differ from those of both placeholders |
| EligibilityPrompt.PlaceholdersOnlyWhenShort | src/evaluatePatientEligibility.py:222-225 | the consent and compliance placeholders are present exactly when fewer than three criteria were derived, and are then appended after them |
| EligibilityPrompt.FormatInclusionCriteria | src/evaluatePatientEligibility.py:229-238 | the loop produces exactly the specified formatted text |
| EligibilityPrompt.NumberedLines | src/evaluatePatientEligibility.py:235-236 | one numbered line per criterion |
| EligibilityPrompt.NumberedIsJoin | src/evaluatePatientEligibility.py:234-238 | the formatted text is the numbered lines joined by newlines, with a final newline |
| EligibilityPrompt.UnlabelLine | src/evaluatePatientEligibility.py:236 | removing the "<n>. " label gives back the criterion |
| EligibilityPrompt.NumberedSplit | src/evaluatePatientEligibility.py:234-238 | splitting the formatted text at newlines gives the numbered lines and one empty tail |
| EligibilityPrompt.ReadNoCriteria | src/evaluatePatientEligibility.py:231-232 | the no-criteria sentence reads back as no criteria |
| EligibilityPrompt.NumberedNotNoCriteria | src/evaluatePatientEligibility.py:231-238 | a numbered list never coincides with the no-criteria sentence |
| EligibilityPrompt.FormatRoundTrip | src/evaluatePatientEligibility.py:229-238 | the no-criteria sentence appears exactly for an empty list, and the formatted text of newline-free criteria reads back as those criteria |
| EligibilityPrompt.JsonFenced | src/evaluatePatientEligibility.py:132-133 | a reply with a "```json" fence yields the stripped fenced body |
| EligibilityPrompt.PlainFenced | src/evaluatePatientEligibility.py:134-135 | a reply with only plain "```" fences yields the stripped body between the first two |
| EligibilityPrompt.Unfenced | src/evaluatePatientEligibility.py:131 | a reply without a fence is decoded as it is |
| EligibilityPrompt.ExtractJson | src/evaluatePatientEligibility.py:131-135 | a reply with no fence is passed on as it is; a fenced one gives a body stripped at both ends |
| EligibilityPrompt.TrialResult | src/evaluatePatientEligibility.py:80-170 | each result carries the trial's id, title and score, or "Unknown", "Unknown" and 0.0 when missing; it holds an evaluation exactly when there is no error, exactly when the model replied and the extracted text decodes, and that evaluation is the decoded text, with no raw response; a raised call keeps its message and no raw response; an undecodable reply keeps the parse-failure message and the stripped reply |
| EligibilityPrompt.Evaluations | src/evaluatePatientEligibility.py:76-170 | one result per trial evaluated |
| EligibilityPrompt.EvaluationsAt | src/evaluatePatientEligibility.py:78-170 | the k-th result is the evaluation of the k-th trial |
| EligibilityPrompt.EvaluateTrial | src/evaluatePatientEligibility.py:79-170 | one trial's criteria are extracted and formatted, the model is asked with the note, date and criteria, and the reply is shaped into the specified result |
| EligibilityPrompt.EvaluatedStep | src/evaluatePatientEligibility.py:78-170 | one trial step keeps the loop's invariant |
| EligibilityPrompt.EvaluatePatientEligibility | src/evaluatePatientEligibility.py:14-178 | the patient id (default "Unknown"), the date, a count equal to the number of results, and one result per top trial, each the evaluation of that trial |
| ReportShaping.CriteriaSummary | src/generateOutput.py:96-105 | one criterion summary per assessment |
| ReportShaping.CriteriaSummaryAt | src/generateOutput.py:97-104 | the k-th summary copies the k-th assessment's criterion, confidence, rationale and medications when present, defaulting them to "Unknown", "low", "" and []; it is met exactly when the assessment says met |
| ReportShaping.BuildCriteriaSummary | src/generateOutput.py:96-105 | the loop builds exactly the criterion summaries |
| ReportShaping.AllCriteriaMet | src/generateOutput.py:85 | true exactly when every assessment is met |
| ReportShaping.Classify | src/generateOutput.py:71-111 | a result is indeterminate exactly when it has an error or no evaluation, eligible exactly when every criterion is met, and ineligible exactly when some criterion is not |
| ReportShaping.EmptyEvaluationEligible | src/generateOutput.py:85 | an empty evaluation without error counts as eligible, with no criteria |
| ReportShaping.Summaries | src/generateOutput.py:66-111 | never more summaries in a bucket than results |
| ReportShaping.Indeterminates | src/generateOutput.py:71-79 | never more indeterminate entries than results |
| ReportShaping.SummariesFrom | src/generateOutput.py:107-111 | every summary in a bucket is the summary of some result classified into it |
| ReportShaping.SummariesComplete | src/generateOutput.py:66-111 | every result classified into a bucket has its summary in that bucket's list |
| ReportShaping.IndeterminatesComplete | src/generateOutput.py:66-78 | every indeterminate result has its entry in the indeterminate list |
| ReportShaping.SummaryMet | src/generateOutput.py:85-111 | a summary is in the eligible bucket exactly when all its criteria are met |
| ReportShaping.IndeterminateReasons | src/generateOutput.py:72-78 | every indeterminate entry comes from an indeterminate result and carries its error, or "Unknown error" |
| ReportShaping.BucketSizes | src/generateOutput.py:66-111 | each bucket holds as many entries as results classified into it, and the three counts add up to the number of results |
| ReportShaping.BucketStep | src/generateOutput.py:66-111 | one result step appends it to exactly its own bucket |
| ReportShaping.FormatResults | src/generateOutput.py:39-122 | the three lists together hold exactly as many trials as there are results |
| ReportShaping.OutputSorted | src/generateOutput.py:113-116 | each list is ordered by decreasing score, is a permutation of its bucket, and keeps the bucket's order among equal scores |
| ReportShaping.FormatResultsForOutput | src/generateOutput.py:39-122 | the loop and the three sorts produce exactly the specified output, header fields with their defaults |
| ReportShaping.EvaluationBucket | src/generateOutput.py:71-79 | a result of the evaluation step is indeterminate exactly when the model call raised or the reply did not decode, and its reason is the call's message or the parse-failure message |
| ReportShaping.SummaryCounts | src/generateOutput.py:166-173 | the summary row counts each list, the counts add up to the number of results, and the ids default to "Unknown" and 0 |
| ReportShaping.UnmetCount | src/generateOutput.py:200 | never more unmet criteria than criteria |
| ReportShaping.Truncate | src/generateOutput.py:211 | a reason of at most 100 characters is kept; a longer one keeps its first 100 characters plus "..." |
| ReportShaping.PrimaryReason | src/generateOutput.py:200-211 | the reason is "Unknown" exactly when there is no unmet criterion; otherwise it is the first unmet criterion's "criterion: rationale", cut to 100 characters plus "..." when longer; it is at most 103 characters |
| ReportShaping.PrimaryReasonIff | src/generateOutput.py:200-204 | no unmet criterion exactly when there is no first unmet one; the first unmet one is an unmet criterion of the list, at a position before which every criterion is met |
| ReportShaping.FirstUnmetIsFirst | src/generateOutput.py:203-204 | an unmet criterion with only met ones before it is the one `next(...)` picks |
| ReportShaping.ReasonNotUnknown | src/generateOutput.py:204-211 | a reason built from an unmet criterion is never "Unknown" |
| ReportShaping.UnmetPositive | src/generateOutput.py:200 | one unmet criterion makes the count positive |
| ReportShaping.UnmetCriteria | src/generateOutput.py:199-204 | the loop computes exactly the unmet count and the primary reason |
| ReportShaping.IneligibleRowsReasoned | src/generateOutput.py:197-213 | every ineligible row has at least one unmet criterion and a real reason of at most 103 characters |
| ReportShaping.EligibleRows | src/generateOutput.py:180-189 | one row per eligible trial |
| ReportShaping.EligibleRowsAt | src/generateOutput.py:180-189 | the k-th row is the row of the k-th eligible trial |
| ReportShaping.EligibleRowsLink | src/generateOutput.py:181-188 | each eligible row has the trial's id, its number of criteria, "Yes", and the study URL followed by the id |
| ReportShaping.IneligibleRows | src/generateOutput.py:197-214 | one row per ineligible trial |
| ReportShaping.IneligibleRowsAt | src/generateOutput.py:197-214 | the k-th row is the row of the k-th ineligible trial |
| ReportShaping.TrialCriterionRows | src/generateOutput.py:225-235 | one detail row per criterion |
| ReportShaping.TrialCriterionRowsMet | src/generateOutput.py:226-230 | a detail row says "Yes" exactly when its criterion is met, and carries the trial's id |
| ReportShaping.CriterionRowsCount | src/generateOutput.py:221-235 | the detail sheet has one row per criterion of every eligible trial |
| ReportShaping.EligibleDetailAllYes | src/generateOutput.py:221-235 | every detail row of an eligible trial says "Yes" |
| ReportShaping.CriterionRowsOf | src/generateOutput.py:225-235 | the inner loop builds exactly one trial's detail rows |
| ReportShaping.BuildEligibleRows | src/generateOutput.py:177-191 | the loop builds exactly the eligible rows |
| ReportShaping.BuildIneligibleRows | src/generateOutput.py:194-216 | the loop builds exactly the ineligible rows |
| ReportShaping.BuildCriterionRows | src/generateOutput.py:219-237 | the loops build exactly the detail rows |
| ReportShaping.CreateRows | src/generateOutput.py:150-244 | the summary row and the three row lists, exactly as specified |
| Sorting.SortDescSpec | src/generateOutput.py:114-116 | sorting on the semantic score in reverse yields a permutation of the trials, ordered by descending key, keeping the input order among equal keys |
| Sorting.SortDescPermutation | src/findTrialsByChroma.py:326 | the reverse sort on the score loses and invents no trial |
| Sorting.SortDescSorted | src/findTrialsByChroma.py:326 | after the reverse sort no trial has a smaller score than the one after it |
| Sorting.SortDescStable | src/findTrialsByChroma.py:326 | among trials with the same score the reverse sort keeps their original order, as Python's sort does |
| Sorting.SortDesc | src/findTrialsByChroma.py:326 | the sorted list is as long as the input |
| Strings.Strip | src/evaluatePatientEligibility.py:127 | stripping leaves no whitespace at either end, empties an all-whitespace text and leaves an already trimmed text alone |
| Strings.JoinSplit | constructCorpus.py:63 | joining the pieces of a split with the separator gives back the original text |
| Strings.JoinAnd | src/parseXMLs.py:702-707 | one name is itself; two or more are all but the last joined by ", ", then " and " and the last |
| Strings.JoinAndShapes | src/parseXMLs.py:705-707 | "A and B" for two names, "A, B and C" for three |
| Strings.StrRepr | constructCorpus.py:109 | Python's repr of a text: the chosen quote at both ends and the escaped body between them |
| Strings.StrReprRoundTrip | constructCorpus.py:109 | reading the escapes of the body back gives the original text |
| Strings.PlainRepr | constructCorpus.py:109 | a printable ASCII text without quotes or backslashes shows as itself in single quotes |
| Strings.ListRepr | constructCorpus.py:109-111 | `str()` of a list of texts: bracketed, "[]" when empty, one item's repr in brackets for one |
| Strings.ListReprPair | constructCorpus.py:109-111 | two items show as their reprs separated by ", " in brackets |
| Strings.ListReprPlainPair | constructCorpus.py:109-111 | two plain names show as ['a', 'b'] |
| Strings.SplitJoin | constructCorpus.py:63 | splitting a join of separator-free pieces gives back exactly those pieces |
| Strings.SplitSingle | constructCorpus.py:63 | a split has a single piece, the text itself, exactly when the separator does not occur |
| Strings.IntToStringParse | src/evaluatePatientEligibility.py:195 | a number written into a criterion reads back as the same number |
| Strings.ReplaceWhole | constructCorpus.py:38-41 | replacing a text that is exactly the target gives the replacement |
| Strings.ReplaceLength | constructCorpus.py:38-41 | each occurrence replaced changes the length by the difference between replacement and target |
| Strings.TakePy | src/evaluatePatientEligibility.py:51 | a Python slice to k keeps the first k items, all of them when k is larger, and drops the last -k when k is negative |
| Strings.Capitalize | src/generateOutput.py:231 | the first character is upper-cased and the rest lower-cased, length unchanged |

## Left out

- XML traversal of C-CDA documents (`find_section_by_code`, element text lookup): library-bound tree navigation. Each entry arrives as the dictionary the extractor built.
- SQL text, schema creation, inserts and SQLite's row order. The table is a sequence of rows, and the capped select returns some rows that all pass the filter, within the limit. The model does not choose which rows those are.
- The vector index client, the sentence embedder and cosine similarity: foreign libraries and floating point. They are oracles that return ordered `(id, distance)` hits, a similarity or a failure.
- The language model call and `json.loads`: oracles. A reply that does not decode is `None`.
- The prompt's fixed instruction text (src/evaluatePatientEligibility.py:93-122): the model captures only the values the prompt is filled with (the patient note, its date and the numbered criteria), not the surrounding wording.
- `float()` on lab values, ranges and enrollment counts: modelled as a parser for plain decimals. Exponents, `inf`/`nan` and underscores are not modelled. The converter's `str()` of the enrollment count and the `:.4f` score formatting are left out. The `str()` of the drug and condition lists is modelled as Python's list text.
- Unicode: `\s`, `\d`, `str.isspace`, `lower`, `upper` and `capitalize` use the ASCII classes only.
- JSON typing: values are modelled at the types the code expects. A JSON `null` is read like an absent key. A document that is neither a list nor an object is not modelled.
- `random.sample`: nondeterministic. The sample is a parameter, constrained to the file's trials and the sampled count.
- File and directory I/O, logging, `print`, `tqdm` progress bars and `collection.count()`. The directory loop of `batch_convert_directory` in temp.py is I/O around the same converter as constructCorpus.py.
- pandas DataFrames and Excel/CSV writing: only the rows' contents are modelled. File names carrying `datetime.now()` are left out.
- Pipeline orchestration (`src/combined_pipeline.py`), network scraping (`src/scrapeTest.py`), the interactive `src/test_chroma.py` and the display-only `parsePatientXML.py` scripts.
- The in-place `list.sort` calls: modelled as a stable sort on values, returning the sorted sequence.
- `high_confidence` in src/generateOutput.py: it is computed but never used.
- SemanticRanker.RankMatchedTrials: requires that no candidate object occurs twice in the input list, so each score write touches one entry. The matcher builds a fresh dictionary per row, so this holds. The same applies to SemanticRanker.RankFallback.
- SemanticRanker.RankFallback: a failing query embedding is modelled as the first similarity failing. In both cases the list comes back in its input order, and the scores written before the failure stay.
- QuerySynthesis.GenerateSemanticSearchQuery: requires that the notes it compares have dates. If a compared date is `None`, Python's sort raises.
- CorpusIngest.InterventionsOf: takes the interventions as a list. A present `interventions` key whose value is `null` makes the source raise, and that case is not modelled.
- VectorDocs.CreateCorpusDb: the trial table's columns are taken as present, as the database schema creates them. Metadata that the vector store would reject as `None` is not modelled.
- VectorDocs.CreateCorpusDb: `condition_name` and `criterion` values are taken as non-NULL text. A NULL among them makes `", ".join` or `"; ".join` raise (src/createVectorDB.py:101-117, 127-131), and that error is not modelled.
- KeyClinicalInfo.ExtractKeyClinicalInfo: requires that, when two or more notes have content, none of their dates is `None`. Otherwise the note sort at src/parseXMLs.py:951-955 compares `None` and raises `TypeError`; that error path is not modelled. KeyClinicalInfo.KeyClinicalInfoOf and KeyClinicalInfo.RecentNotes carry the same requirement.
- StructuredFilter.RunQueries: the total is `COUNT(DISTINCT trial_id)` in the source and the number of matching rows in the model. The two agree because the schema declares `trial_id` UNIQUE (src/createCorpusDB.py:232) and the model's rows always carry an id. NULL ids, which UNIQUE admits more than once and `COUNT(DISTINCT ...)` skips, are not modelled.
- Strings.StrRepr: non-ASCII characters are kept as they are. Python also escapes the non-printable ones (`\x..`, `\u....`), and the model does not.
- CorpusConverter.RecoverArray: a recovered item that still fails `json.loads` is skipped by the source. The model stops at the recovered item texts.

## Findings

| source | as written | input that shows it | evidently intended | confidence | as-written member | corrected member |
|---|---|---|---|---|---|---|
| src/findTrialsForPatient.py:187 | `parse_and_match_trials` unpacks the matcher's result into two names. On a missing database the matcher returns a bare empty list (lines 20-22), and the unpacking raises `ValueError` | a database path that does not exist | an empty match list with a zero total, as the newer matcher returns | not executed | StructuredFilter.MissingDatabaseCrashesScript | StructuredFilter.MissingAsEmptyPair |
