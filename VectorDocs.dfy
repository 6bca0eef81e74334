/**
 * Building the vector-store corpus from the trials database
 * (`create_corpus_db`): the early exits, the partition of the trial ids into
 * batches, and the document text and metadata record written for each trial.
 * The database is a value holding its tables as row sequences, each query a
 * filter over the rows in stored order; the vector store is the sequence of
 * batches handed to `collection.add`.
 */
module VectorDocs {
  import opened Wrappers
  import opened Strings

  // ---------------------------------------------------------------------------
  // The database
  // ---------------------------------------------------------------------------

  /** A row of `trials` as the builder selects it; `None` is SQL NULL. */
  datatype TrialRow = TrialRow(
    trialId: string,
    title: Option<string>,
    minimumAge: Option<int>,
    maximumAge: Option<int>,
    sex: Option<string>,
    healthy: Option<int>,
    participantCount: Option<int>)

  /** A row of `conditions`, `inclusion_criteria` or `exclusion_criteria`. */
  datatype KeyedText = KeyedText(trialId: string, text: string)

  /** A row of `interventions`. */
  datatype InterventionRow = InterventionRow(trialId: string, interventionType: Option<string>, name: Option<string>)

  datatype Database = Database(
    tables: seq<string>,
    trials: seq<TrialRow>,
    conditions: seq<KeyedText>,
    interventions: seq<InterventionRow>,
    inclusion: seq<KeyedText>,
    exclusion: seq<KeyedText>)

  datatype SqliteFile = Missing | Found(db: Database)

  /** `SELECT trial_id FROM trials`. */
  function TrialIds(db: Database): (r: seq<string>)
    ensures |r| == |db.trials|
    ensures forall k :: 0 <= k < |r| ==> r[k] == db.trials[k].trialId
  {
    seq(|db.trials|, k requires 0 <= k < |db.trials| => db.trials[k].trialId)
  }

  /** `SELECT ... FROM trials WHERE trial_id = ?` followed by `fetchone()`: the first row with that id. */
  function LookupTrial(rows: seq<TrialRow>, id: string): (r: Option<TrialRow>)
    ensures r.Some? ==> r.value in rows && r.value.trialId == id
    ensures r.None? ==> forall k :: 0 <= k < |rows| ==> rows[k].trialId != id
  {
    if rows == [] then None
    else if rows[0].trialId == id then Some(rows[0])
    else LookupTrial(rows[1..], id)
  }

  /** The `text` column of the rows for one trial, in stored order. */
  function TextsFor(rows: seq<KeyedText>, id: string): (r: seq<string>)
    ensures |r| <= |rows|
  {
    if rows == [] then []
    else (if rows[0].trialId == id then [rows[0].text] else []) + TextsFor(rows[1..], id)
  }

  /** Python's `f"{v}"` of a text column. */
  function Shown(v: Option<string>): string
  {
    match v
    case None => "None"
    case Some(s) => s
  }

  /** Python's `f"{v}"` of an integer column. */
  function ShownInt(v: Option<int>): string
  {
    match v
    case None => "None"
    case Some(i) => IntToString(i)
  }

  /** One intervention row as the document shows it: `f"{type}: {name}"`. */
  function ShownIntervention(row: InterventionRow): string
  {
    Shown(row.interventionType) + ": " + Shown(row.name)
  }

  /** The interventions of one trial rendered `"type: name"`, in stored order. */
  function InterventionsFor(rows: seq<InterventionRow>, id: string): (r: seq<string>)
    ensures |r| <= |rows|
  {
    if rows == [] then []
    else (if rows[0].trialId == id then [ShownIntervention(rows[0])] else []) + InterventionsFor(rows[1..], id)
  }

  /** The rendered interventions are exactly those of the rows with that trial id. */
  lemma {:induction false} InterventionsForMembers(rows: seq<InterventionRow>, id: string, t: string)
    ensures t in InterventionsFor(rows, id) <==>
      exists k :: 0 <= k < |rows| && rows[k].trialId == id && t == ShownIntervention(rows[k])
  {
    if rows != [] {
      InterventionsForMembers(rows[1..], id, t);
      if exists k :: 0 <= k < |rows| - 1 && rows[1..][k].trialId == id && t == ShownIntervention(rows[1..][k]) {
        var k :| 0 <= k < |rows| - 1 && rows[1..][k].trialId == id && t == ShownIntervention(rows[1..][k]);
        assert rows[k + 1] == rows[1..][k];
      }
      if exists k :: 0 <= k < |rows| && rows[k].trialId == id && t == ShownIntervention(rows[k]) {
        var k :| 0 <= k < |rows| && rows[k].trialId == id && t == ShownIntervention(rows[k]);
        if k > 0 {
          assert rows[1..][k - 1] == rows[k];
        }
      }
    }
  }

  /** A query for one trial returns exactly the texts of the rows with that id. */
  lemma {:induction false} TextsForMembers(rows: seq<KeyedText>, id: string, t: string)
    ensures t in TextsFor(rows, id) <==> KeyedText(id, t) in rows
  {
    if rows != [] {
      TextsForMembers(rows[1..], id, t);
      assert rows == [rows[0]] + rows[1..];
    }
  }

  /** A trial listed by `SELECT trial_id` is found again by its id. */
  lemma {:induction false} ListedTrialFound(db: Database, id: string)
    ensures id in TrialIds(db) <==> LookupTrial(db.trials, id).Some?
  {
    if id in TrialIds(db) {
      var k :| 0 <= k < |TrialIds(db)| && TrialIds(db)[k] == id;
      assert db.trials[k].trialId == id;
    }
  }

  // ---------------------------------------------------------------------------
  // The document and its metadata
  // ---------------------------------------------------------------------------

  /** `f"{age or 'N/A'}"`: NULL and 0 are both falsy; a positive age reads back as itself. */
  function AgeText(age: Option<int>): (r: string)
    ensures age.Some? && age.value > 0 ==> AllDigits(r) && DigitsValue(r) == age.value
  {
    if age.None? || age.value == 0 then "N/A"
    else if age.value > 0 then
      NatToStringValue(age.value);
      IntToString(age.value)
    else IntToString(age.value)
  }

  /** "N/A" is shown exactly for a falsy age. */
  lemma AgeTextMeaning(age: Option<int>)
    ensures AgeText(age) == "N/A" <==> age.None? || age.value == 0
  {
    if age.Some? && age.value != 0 {
      var r := IntToString(age.value);
      assert "N/A"[0] == 'N' && !IsDigit('N');
      if age.value > 0 {
        assert r == NatToString(age.value);
        NatToStringValue(age.value);
      }
      assert r != "N/A";
    }
  }

  /** The ten lines of the document, in their fixed order. */
  function DocumentLines(row: TrialRow, conditions: seq<string>, interventions: seq<string>,
                         inclusion: seq<string>, exclusion: seq<string>): (r: seq<string>)
    ensures |r| == 10
  {
    [ "Trial ID: " + row.trialId,
      "Title: " + Shown(row.title),
      "Age Range: " + AgeText(row.minimumAge) + " to " + AgeText(row.maximumAge),
      "Sex: " + Shown(row.sex),
      "Accepts Healthy Volunteers: " + ShownInt(row.healthy),
      "Participant Count: " + ShownInt(row.participantCount),
      "Conditions: " + Join(conditions, ", "),
      "Interventions: " + Join(interventions, "; "),
      "Inclusion Criteria: " + Join(inclusion, "; "),
      "Exclusion Criteria: " + Join(exclusion, "; ") ]
  }

  /** The document text: the lines joined by line breaks, with no trailing break; it opens with the trial id line. */
  function TrialDocument(row: TrialRow, conditions: seq<string>, interventions: seq<string>,
                         inclusion: seq<string>, exclusion: seq<string>): (r: string)
    ensures IsPrefix("Trial ID: " + row.trialId + "\n", r)
  {
    var lines := DocumentLines(row, conditions, interventions, inclusion, exclusion);
    assert Join(lines, "\n") == lines[0] + "\n" + Join(lines[1..], "\n");
    Join(lines, "\n")
  }

  /** When no field value holds a line break, the document splits back into exactly its ten lines. */
  lemma DocumentLinesBack(row: TrialRow, conditions: seq<string>, interventions: seq<string>,
                          inclusion: seq<string>, exclusion: seq<string>)
    requires forall k :: 0 <= k < 10 ==> '\n' !in DocumentLines(row, conditions, interventions, inclusion, exclusion)[k]
    ensures Split(TrialDocument(row, conditions, interventions, inclusion, exclusion), "\n")
      == DocumentLines(row, conditions, interventions, inclusion, exclusion)
  {
    SplitJoin(DocumentLines(row, conditions, interventions, inclusion, exclusion), "\n");
  }

  /** The metadata record stored beside a document. */
  datatype Metadata = Metadata(
    trialId: string,
    title: Option<string>,
    minAge: int,
    maxAge: int,
    sex: Option<string>,
    healthyVolunteers: bool,
    participantCount: int,
    conditionsCount: nat,
    interventionsCount: nat)

  /** The metadata of a trial row: NULL ages become -1 and 999, a NULL count 0. */
  function StoredMetadata(row: TrialRow, conditions: seq<string>, interventions: seq<string>): (m: Metadata)
    ensures m.trialId == row.trialId && m.title == row.title && m.sex == row.sex
    ensures m.healthyVolunteers <==> row.healthy == Some(1)
    ensures row.participantCount.None? ==> m.participantCount == 0
    ensures row.participantCount.Some? ==> m.participantCount == row.participantCount.value
    ensures m.conditionsCount == |conditions| && m.interventionsCount == |interventions|
  {
    Metadata(row.trialId, row.title,
      if row.minimumAge.Some? then row.minimumAge.value else -1,
      if row.maximumAge.Some? then row.maximumAge.value else 999,
      row.sex, row.healthy == Some(1),
      if row.participantCount.Some? then row.participantCount.value else 0,
      |conditions|, |interventions|)
  }

  /**
   * The age sentinels stand for "no bound": for an age from 0 to 999 a metadata
   * window test agrees with the row's own bounds, NULL meaning unbounded.
   */
  lemma MetadataAgeWindow(row: TrialRow, conditions: seq<string>, interventions: seq<string>, age: int)
    requires 0 <= age <= 999
    requires row.minimumAge.Some? ==> row.minimumAge.value >= 0
    ensures var m := StoredMetadata(row, conditions, interventions);
      (m.minAge <= age <==> row.minimumAge.None? || row.minimumAge.value <= age)
      && (age <= m.maxAge <==> row.maximumAge.None? || age <= row.maximumAge.value)
  {
  }

  /** The document and metadata of one trial id, or `None` when no row has that id. */
  function Entry(db: Database, id: string): (r: Option<(string, Metadata)>)
    ensures r.Some? <==> LookupTrial(db.trials, id).Some?
    ensures r.Some? ==> r.value.1.trialId == id
  {
    match LookupTrial(db.trials, id)
    case None => None
    case Some(row) =>
      var conditions := TextsFor(db.conditions, id);
      var interventions := InterventionsFor(db.interventions, id);
      var inclusion := TextsFor(db.inclusion, id);
      var exclusion := TextsFor(db.exclusion, id);
      Some((TrialDocument(row, conditions, interventions, inclusion, exclusion),
            StoredMetadata(row, conditions, interventions)))
  }

  // ---------------------------------------------------------------------------
  // One batch
  // ---------------------------------------------------------------------------

  /** The three position-aligned lists given to `collection.add`. */
  datatype Batch = Batch(ids: seq<string>, documents: seq<string>, metadatas: seq<Metadata>)

  /** The ids of a batch that have a trial row, in order. */
  function KeptIds(db: Database, ids: seq<string>): (r: seq<string>)
    ensures |r| <= |ids|
  {
    if ids == [] then []
    else KeptIds(db, ids[..|ids| - 1]) + (if LookupTrial(db.trials, ids[|ids| - 1]).Some? then [ids[|ids| - 1]] else [])
  }

  /** The batch built from a slice of ids; an id without a row is skipped. */
  function BatchOf(db: Database, ids: seq<string>): (b: Batch)
    ensures |b.documents| == |b.ids| && |b.metadatas| == |b.ids|
    ensures b.ids == KeptIds(db, ids)
  {
    if ids == [] then Batch([], [], [])
    else
      var b := BatchOf(db, ids[..|ids| - 1]);
      var id := ids[|ids| - 1];
      match Entry(db, id)
      case None => b
      case Some(e) => Batch(b.ids + [id], b.documents + [e.0], b.metadatas + [e.1])
  }

  /** Each position of a batch holds the document and metadata of the id at that position. */
  predicate EntriesMatch(db: Database, b: Batch)
    requires |b.documents| == |b.ids| && |b.metadatas| == |b.ids|
  {
    forall k :: 0 <= k < |b.ids| ==> Entry(db, b.ids[k]) == Some((b.documents[k], b.metadatas[k]))
  }

  lemma {:induction false} BatchEntries(db: Database, ids: seq<string>)
    ensures EntriesMatch(db, BatchOf(db, ids))
  {
    if ids != [] {
      var prefix := BatchOf(db, ids[..|ids| - 1]);
      BatchEntries(db, ids[..|ids| - 1]);
      var id := ids[|ids| - 1];
      match Entry(db, id)
      case None =>
        assert BatchOf(db, ids) == prefix;
      case Some(e) =>
        var b := Batch(prefix.ids + [id], prefix.documents + [e.0], prefix.metadatas + [e.1]);
        assert BatchOf(db, ids) == b;
        forall k | 0 <= k < |b.ids| ensures Entry(db, b.ids[k]) == Some((b.documents[k], b.metadatas[k])) {
          if k < |prefix.ids| {
            assert b.ids[k] == prefix.ids[k] && b.documents[k] == prefix.documents[k] && b.metadatas[k] == prefix.metadatas[k];
          }
        }
    }
  }

  /** The inner loop over the ids of one batch. */
  method BuildBatch(db: Database, batchIds: seq<string>) returns (b: Batch)
    ensures b == BatchOf(db, batchIds)
  {
    var documents: seq<string> := [];
    var metadatas: seq<Metadata> := [];
    var ids: seq<string> := [];
    for k := 0 to |batchIds|
      invariant Batch(ids, documents, metadatas) == BatchOf(db, batchIds[..k])
    {
      assert batchIds[..k + 1][..k] == batchIds[..k];
      var id := batchIds[k];
      var trialInfo := LookupTrial(db.trials, id);
      if trialInfo.None? {
        continue;
      }
      var conditions := TextsFor(db.conditions, id);
      var interventions := InterventionsFor(db.interventions, id);
      var inclusion := TextsFor(db.inclusion, id);
      var exclusion := TextsFor(db.exclusion, id);
      var row := trialInfo.value;
      documents := documents + [TrialDocument(row, conditions, interventions, inclusion, exclusion)];
      metadatas := metadatas + [StoredMetadata(row, conditions, interventions)];
      ids := ids + [id];
    }
    assert batchIds[..|batchIds|] == batchIds;
    b := Batch(ids, documents, metadatas);
  }

  lemma {:induction false} KeptIdsConcat(db: Database, a: seq<string>, b: seq<string>)
    ensures KeptIds(db, a + b) == KeptIds(db, a) + KeptIds(db, b)
    decreases |b|
  {
    if b != [] {
      var b' := b[..|b| - 1];
      assert (a + b)[..|a + b| - 1] == a + b';
      assert (a + b)[|a + b| - 1] == b[|b| - 1];
      KeptIdsConcat(db, a, b');
    } else {
      assert a + b == a;
    }
  }

  /** Ids taken from the trials table are all kept. */
  lemma {:induction false} ListedIdsKept(db: Database, ids: seq<string>)
    requires forall k :: 0 <= k < |ids| ==> ids[k] in TrialIds(db)
    ensures KeptIds(db, ids) == ids
  {
    if ids != [] {
      ListedIdsKept(db, ids[..|ids| - 1]);
      ListedTrialFound(db, ids[|ids| - 1]);
    }
  }

  // ---------------------------------------------------------------------------
  // The partition into batches
  // ---------------------------------------------------------------------------

  /** `[xs[j:j + size] for j in range(i, len(xs), size)]`. */
  function SlicesFrom<T>(xs: seq<T>, i: nat, size: nat): seq<seq<T>>
    requires size > 0
    decreases |xs| - i
  {
    if i >= |xs| then [] else [xs[i..Min(i + size, |xs|)]] + SlicesFrom(xs, i + size, size)
  }

  /** The batches of the whole list: `range(0, len(xs), size)`. */
  function Slices<T>(xs: seq<T>, size: nat): seq<seq<T>>
    requires size > 0
  {
    SlicesFrom(xs, 0, size)
  }

  function Flatten<T>(ss: seq<seq<T>>): seq<T>
  {
    if ss == [] then [] else ss[0] + Flatten(ss[1..])
  }

  /** The slices put back together are the whole list, in order. */
  lemma {:induction false} SlicesCover<T>(xs: seq<T>, i: nat, size: nat)
    requires size > 0 && i <= |xs|
    ensures Flatten(SlicesFrom(xs, i, size)) == xs[i..]
    decreases |xs| - i
  {
    if i < |xs| {
      var r := SlicesFrom(xs, i, size);
      assert r[1..] == SlicesFrom(xs, i + size, size);
      if i + size <= |xs| {
        SlicesCover(xs, i + size, size);
        assert xs[i..] == xs[i..i + size] + xs[i + size..];
      } else {
        assert xs[i..Min(i + size, |xs|)] == xs[i..];
      }
    }
  }

  /** Every slice is non-empty and at most `size` long, and all but the last exactly `size`. */
  predicate FullSlices<T>(r: seq<seq<T>>, size: nat)
  {
    forall k :: 0 <= k < |r| ==> 0 < |r[k]| <= size && (k < |r| - 1 ==> |r[k]| == size)
  }

  lemma {:induction false} SlicesShape<T>(xs: seq<T>, i: nat, size: nat)
    requires size > 0
    ensures FullSlices(SlicesFrom(xs, i, size), size)
    decreases |xs| - i
  {
    if i < |xs| {
      SlicesShape(xs, i + size, size);
      var r := SlicesFrom(xs, i, size);
      var rest := SlicesFrom(xs, i + size, size);
      assert r == [xs[i..Min(i + size, |xs|)]] + rest;
      forall k | 0 <= k < |r| ensures 0 < |r[k]| <= size && (k < |r| - 1 ==> |r[k]| == size) {
        if k > 0 {
          assert r[k] == rest[k - 1];
        }
      }
    }
  }

  lemma {:induction false} MulAtLeast(d: int, size: int)
    requires d >= 1 && size > 0
    ensures d * size >= size
  {
    if d > 1 {
      MulAtLeast(d - 1, size);
      assert d * size == (d - 1) * size + size;
    }
  }

  /** The quotient is the only multiplier that leaves a remainder below the divisor. */
  lemma DivUnique(a: int, x: int, m: int, size: int)
    requires size > 0 && 0 <= m < size && a == x * size + m
    ensures a / size == x
  {
    var q := a / size;
    var r := a % size;
    assert a == q * size + r;
    assert (x - q) * size == r - m;
    if x > q {
      MulAtLeast(x - q, size);
    } else if x < q {
      MulAtLeast(q - x, size);
    }
  }

  lemma DivStep(a: int, size: int)
    requires size > 0 && a >= size
    ensures (a - size) / size + 1 == a / size
  {
    var q := (a - size) / size;
    var m := (a - size) % size;
    assert a - size == q * size + m;
    assert a == (q + 1) * size + m;
    DivUnique(a, q + 1, m, size);
  }

  /** From position `i` there are `ceil((n - i) / size)` slices. */
  lemma {:induction false} SlicesCount<T>(xs: seq<T>, i: nat, size: nat)
    requires size > 0 && i <= |xs|
    ensures |SlicesFrom(xs, i, size)| == ReportedBatchTotal(|xs| - i, size)
    decreases |xs| - i
  {
    var n := |xs| - i;
    if i + size <= |xs| && n > size {
      SlicesCount(xs, i + size, size);
      DivStep(n + size - 1, size);
    } else if n > 0 {
      if i + size <= |xs| {
        assert n == size;
        SlicesCount(xs, i + size, size);
      }
      assert size <= n + size - 1 < 2 * size;
      DivUnique(n + size - 1, 1, n - 1, size);
    } else {
      DivUnique(size - 1, 0, size - 1, size);
    }
  }

  /** `(total_trials + batch_size - 1) // batch_size`. */
  function ReportedBatchTotal(total: nat, size: nat): nat
    requires size > 0
  {
    (total + size - 1) / size
  }

  /** The batches that reach the store: each slice's batch, when it has documents. */
  function AddedBatches(db: Database, slices: seq<seq<string>>): (r: seq<Batch>)
    ensures |r| <= |slices|
  {
    if slices == [] then []
    else
      var b := BatchOf(db, slices[0]);
      (if |b.documents| > 0 then [b] else []) + AddedBatches(db, slices[1..])
  }

  /** No batch without documents reaches the store (`if documents:` guards the `add`). */
  lemma {:induction false} AddedBatchesNonEmpty(db: Database, slices: seq<seq<string>>)
    ensures forall k :: 0 <= k < |AddedBatches(db, slices)| ==> |AddedBatches(db, slices)[k].documents| > 0
  {
    if slices != [] {
      AddedBatchesNonEmpty(db, slices[1..]);
    }
  }

  lemma AddedBatchesCons(db: Database, s: seq<string>, rest: seq<seq<string>>)
    ensures AddedBatches(db, [s] + rest)
      == (if |BatchOf(db, s).documents| > 0 then [BatchOf(db, s)] else []) + AddedBatches(db, rest)
  {
    assert ([s] + rest)[0] == s && ([s] + rest)[1..] == rest;
  }

  /** All the ids of a list of batches, in order. */
  function BatchIds(batches: seq<Batch>): seq<string>
  {
    if batches == [] then [] else batches[0].ids + BatchIds(batches[1..])
  }

  lemma {:induction false} AddedIds(db: Database, slices: seq<seq<string>>)
    ensures BatchIds(AddedBatches(db, slices)) == KeptIds(db, Flatten(slices))
  {
    if slices != [] {
      var b := BatchOf(db, slices[0]);
      var rest := AddedBatches(db, slices[1..]);
      AddedIds(db, slices[1..]);
      KeptIdsConcat(db, slices[0], Flatten(slices[1..]));
      if |b.documents| > 0 {
        assert AddedBatches(db, slices) == [b] + rest;
        assert ([b] + rest)[1..] == rest;
      } else {
        assert AddedBatches(db, slices) == rest;
      }
    }
  }

  // ---------------------------------------------------------------------------
  // The whole build
  // ---------------------------------------------------------------------------

  datatype Outcome =
    | NoDatabaseFile
    | NoTables
    | NoTrialsTable
    | InvalidBatchSize
    | Indexed(added: seq<Batch>)

  /**
   * What `create_corpus_db` does with a database file and a batch size. The
   * three early exits precede opening the store; a zero step makes `range`
   * raise; a negative step gives an empty range.
   */
  function CorpusOutcome(file: SqliteFile, batchSize: int): Outcome
  {
    match file
    case Missing => NoDatabaseFile
    case Found(db) =>
      if |db.tables| == 0 then NoTables
      else if "trials" !in db.tables then NoTrialsTable
      else if batchSize == 0 then InvalidBatchSize
      else if batchSize < 0 then Indexed([])
      else Indexed(AddedBatches(db, Slices(TrialIds(db), batchSize)))
  }

  /** Every trial of the table reaches the store exactly once and in table order, whatever the batch size. */
  lemma EveryTrialIndexed(db: Database, batchSize: int)
    requires |db.tables| > 0 && "trials" in db.tables && batchSize > 0
    ensures CorpusOutcome(Found(db), batchSize).Indexed?
    ensures BatchIds(CorpusOutcome(Found(db), batchSize).added) == TrialIds(db)
  {
    var ids := TrialIds(db);
    AddedIds(db, Slices(ids, batchSize));
    SlicesCover(ids, 0, batchSize);
    ListedIdsKept(db, ids);
  }

  /** The reported batch total counts the slices of the table's ids. */
  lemma ReportedTotalIsSliceCount(db: Database, batchSize: nat)
    requires batchSize > 0
    ensures ReportedBatchTotal(|db.trials|, batchSize) == |Slices(TrialIds(db), batchSize)|
  {
    SlicesCount(TrialIds(db), 0, batchSize);
  }

  /** `create_corpus_db`: the early exits, then the loop over the batches. */
  method CreateCorpusDb(file: SqliteFile, batchSize: int) returns (o: Outcome)
    ensures o == CorpusOutcome(file, batchSize)
  {
    if file.Missing? {
      return NoDatabaseFile;
    }
    var db := file.db;
    if |db.tables| == 0 {
      return NoTables;
    }
    if "trials" !in db.tables {
      return NoTrialsTable;
    }
    if batchSize == 0 {
      return InvalidBatchSize;
    }
    var added: seq<Batch> := [];
    if batchSize > 0 {
      added := IndexBatches(db, TrialIds(db), batchSize);
    }
    o := Indexed(added);
  }

  /** The outer loop: one batch per slice of `batch_size` ids, added when it has documents. */
  method IndexBatches(db: Database, trialIds: seq<string>, batchSize: nat) returns (added: seq<Batch>)
    requires batchSize > 0
    ensures added == AddedBatches(db, Slices(trialIds, batchSize))
  {
    added := [];
    var i: nat := 0;
    while i < |trialIds|
      invariant 0 <= i
      invariant Progress(db, trialIds, batchSize, i, added)
      decreases |trialIds| - i
    {
      added := AddSlice(db, trialIds, i, batchSize, added);
      i := i + batchSize;
    }
    assert SlicesFrom(trialIds, i, batchSize) == [];
  }

  /** The loop invariant: the batches added so far, then those of the slices from `i`, are all of them. */
  predicate Progress(db: Database, trialIds: seq<string>, batchSize: nat, i: nat, added: seq<Batch>)
    requires batchSize > 0
  {
    added + AddedBatches(db, SlicesFrom(trialIds, i, batchSize)) == AddedBatches(db, Slices(trialIds, batchSize))
  }

  /** One turn of the outer loop: the batch of the slice at `i`, appended when it has documents. */
  method AddSlice(db: Database, trialIds: seq<string>, i: nat, batchSize: nat, before: seq<Batch>)
    returns (added: seq<Batch>)
    requires batchSize > 0 && i < |trialIds|
    requires Progress(db, trialIds, batchSize, i, before)
    ensures Progress(db, trialIds, batchSize, i + batchSize, added)
  {
    var batchIds := trialIds[i..Min(i + batchSize, |trialIds|)];
    var batch := BuildBatch(db, batchIds);
    added := before;
    if |batch.documents| > 0 {
      added := added + [batch];
    }
    StepBatches(db, trialIds, i, batchSize, before, batch, added);
  }

  /** One turn of the outer loop consumes the next slice. */
  lemma StepBatches(db: Database, trialIds: seq<string>, i: nat, batchSize: nat,
                    before: seq<Batch>, batch: Batch, added: seq<Batch>)
    requires batchSize > 0 && i < |trialIds|
    requires batch == BatchOf(db, trialIds[i..Min(i + batchSize, |trialIds|)])
    requires added == before + (if |batch.documents| > 0 then [batch] else [])
    ensures added + AddedBatches(db, SlicesFrom(trialIds, i + batchSize, batchSize))
      == before + AddedBatches(db, SlicesFrom(trialIds, i, batchSize))
  {
    var later := SlicesFrom(trialIds, i + batchSize, batchSize);
    var head := if |batch.documents| > 0 then [batch] else [];
    AddedBatchesCons(db, trialIds[i..Min(i + batchSize, |trialIds|)], later);
    ConcatAssoc(before, head, AddedBatches(db, later));
  }
}
