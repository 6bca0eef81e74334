/**
 * Semantic re-ranking of the demographically matched trials. The vector index
 * and the embedder are oracles: an index query returns an ordered list of
 * `(id, distance)` hits or raises, and the fallback similarity of a trial text
 * is a number or a failure. Candidates are objects whose only mutable field
 * is the semantic score the ranker writes into them.
 */
module SemanticRanker {
  import opened Wrappers
  import opened Strings
  import Sorting
  import PatientRecord
  import QuerySynthesis

  /** A matched trial as the ranker sees it. */
  class Candidate {
    const trialId: string
    const trialTitle: string
    const conditions: seq<string>
    var score: Option<real>

    constructor (id: string, title: string, conds: seq<string>)
      ensures trialId == id && trialTitle == title && conditions == conds && score.None?
    {
      trialId := id;
      trialTitle := title;
      conditions := conds;
      score := None;
    }

    /** The text the fallback embeds: the title, a space, and the conditions joined by spaces. */
    function Text(): (r: string)
      ensures IsPrefix(trialTitle + " ", r)
      ensures conditions == [] ==> r == trialTitle + " "
      ensures |conditions| > 0 && (forall k :: 0 <= k < |conditions| ==> ' ' !in conditions[k]) ==>
                Split(r[|trialTitle| + 1..], " ") == conditions
    {
      var tail := Join(conditions, " ");
      if |conditions| > 0 && (forall k :: 0 <= k < |conditions| ==> ' ' !in conditions[k]) then
        SplitJoin(conditions, " ");
        assert (trialTitle + " " + tail)[|trialTitle| + 1..] == tail;
        trialTitle + " " + tail
      else
        trialTitle + " " + tail
    }
  }

  /** No candidate object occurs twice in the list. */
  predicate Distinct(cands: seq<Candidate>) {
    forall i, j :: 0 <= i < j < |cands| ==> cands[i] != cands[j]
  }

  /** The state of the `clinical_trials` collection: not listed, failing to open, or open. */
  datatype Collection = NotListed | OpenFails | Opened

  /** One index query: it raises, or returns ordered `(id, distance)` hits. */
  datatype QueryResult = Raised | Returned(hits: seq<(string, real)>)

  predicate HasHits(r: QueryResult) { r.Returned? && r.hits != [] }

  /** The query text: the stored key-info query if there is one, else a freshly built one. */
  function SearchQuery(stored: Option<string>, p: PatientRecord.Patient): (q: string)
    requires stored.None? ==> QuerySynthesis.QueryPrecondition(p)
    ensures stored.Some? ==> q == stored.value
    ensures stored.None? ==> q == QuerySynthesis.SemanticSearchQuery(p)
  {
    if stored.Some? then stored.value else QuerySynthesis.SemanticSearchQuery(p)
  }

  function Ids(cands: seq<Candidate>): (r: seq<string>)
    ensures |r| == |cands| && forall i :: 0 <= i < |r| ==> r[i] == cands[i].trialId
  {
    if cands == [] then [] else Ids(cands[..|cands| - 1]) + [cands[|cands| - 1].trialId]
  }

  // ---------------------------------------------------------------------------
  // Retrieval: the filtered query, the unfiltered retry, the alternative query
  // ---------------------------------------------------------------------------

  /** The hits whose id is a candidate id, in index order, each with its own distance. */
  function ManualFilter(hits: seq<(string, real)>, ids: seq<string>): (r: seq<(string, real)>)
    ensures |r| <= |hits|
    ensures forall h :: h in r <==> h in hits && h.0 in ids
  {
    if hits == [] then []
    else
      var h := hits[|hits| - 1];
      ManualFilter(hits[..|hits| - 1], ids) + (if h.0 in ids then [h] else [])
  }

  /** The manual filtering loop after the unfiltered retry. */
  method FilterHits(hits: seq<(string, real)>, ids: seq<string>) returns (r: seq<(string, real)>)
    ensures r == ManualFilter(hits, ids)
  {
    var filteredIds: seq<string> := [];
    var filteredDistances: seq<real> := [];
    for i := 0 to |hits|
      invariant |filteredIds| == |filteredDistances|
      invariant ManualFilter(hits[..i], ids) == seq(|filteredIds|, k requires 0 <= k < |filteredIds| => (filteredIds[k], filteredDistances[k]))
    {
      assert hits[..i + 1][..i] == hits[..i];
      if hits[i].0 in ids {
        filteredIds := filteredIds + [hits[i].0];
        filteredDistances := filteredDistances + [hits[i].1];
      }
    }
    assert hits[..|hits|] == hits;
    r := seq(|filteredIds|, k requires 0 <= k < |filteredIds| => (filteredIds[k], filteredDistances[k]));
  }

  /**
   * The hits the ranker works from. The filtered query is used when it has
   * hits; otherwise the unfiltered retry, filtered by hand; a raise in either
   * leads to the alternative query, whose raise leaves no results.
   */
  function Retrieved(ids: seq<string>, filtered: QueryResult, retry: QueryResult, alternative: QueryResult): QueryResult
  {
    if filtered.Raised? then alternative
    else if HasHits(filtered) then filtered
    else if retry.Raised? then alternative
    else if HasHits(retry) then Returned(ManualFilter(retry.hits, ids))
    else retry
  }

  method Retrieve(ids: seq<string>, filtered: QueryResult, retry: QueryResult, alternative: QueryResult)
    returns (results: QueryResult)
    ensures results == Retrieved(ids, filtered, retry, alternative)
  {
    if filtered.Raised? {
      results := alternative;
      return;
    }
    results := filtered;
    if !HasHits(results) {
      if retry.Raised? {
        results := alternative;
        return;
      }
      results := retry;
      if HasHits(results) {
        var hits := FilterHits(results.hits, ids);
        results := Returned(hits);
      }
    }
  }

  /** The unfiltered retry only ever contributes hits on candidate ids. */
  lemma RetrievedRetryOnCandidates(ids: seq<string>, filtered: QueryResult, retry: QueryResult, alternative: QueryResult)
    requires filtered.Returned? && !HasHits(filtered) && HasHits(retry)
    ensures Retrieved(ids, filtered, retry, alternative).Returned?
    ensures forall h :: h in Retrieved(ids, filtered, retry, alternative).hits <==> h in retry.hits && h.0 in ids
  {
  }

  // ---------------------------------------------------------------------------
  // The primary path
  // ---------------------------------------------------------------------------

  /** The position `trial_dict` maps an id to: the last candidate with that id. */
  function LastIndex(cands: seq<Candidate>, id: string): (r: Option<nat>)
    ensures r.Some? ==> r.value < |cands| && cands[r.value].trialId == id
    ensures r.Some? ==> forall j :: r.value < j < |cands| ==> cands[j].trialId != id
    ensures r.None? <==> forall j :: 0 <= j < |cands| ==> cands[j].trialId != id
  {
    if cands == [] then None
    else if cands[|cands| - 1].trialId == id then Some(|cands| - 1)
    else LastIndex(cands[..|cands| - 1], id)
  }

  /** For each hit on a candidate, in hit order: the candidate's position and the score `1 - distance`. */
  function Entries(hits: seq<(string, real)>, cands: seq<Candidate>): (r: seq<(nat, real)>)
    ensures |r| <= |hits|
    ensures forall e :: e in r ==> e.0 < |cands|
  {
    if hits == [] then []
    else
      var h := hits[|hits| - 1];
      var idx := LastIndex(cands, h.0);
      Entries(hits[..|hits| - 1], cands) + (if idx.Some? then [(idx.value, 1.0 - h.1)] else [])
  }

  function Pick(cands: seq<Candidate>, entries: seq<(nat, real)>): (r: seq<Candidate>)
    requires forall e :: e in entries ==> e.0 < |cands|
    ensures |r| == |entries| && forall k :: 0 <= k < |r| ==> r[k] == cands[entries[k].0]
  {
    if entries == [] then [] else Pick(cands, entries[..|entries| - 1]) + [cands[entries[|entries| - 1].0]]
  }

  /** The score candidate `i` ends with: that of the last entry for it, else the one it had. */
  function ScoreAfter(entries: seq<(nat, real)>, i: nat, before: Option<real>): Option<real>
  {
    if entries == [] then before
    else if entries[|entries| - 1].0 == i then Some(entries[|entries| - 1].1)
    else ScoreAfter(entries[..|entries| - 1], i, before)
  }

  lemma ScoreAfterSnoc(entries: seq<(nat, real)>, e: (nat, real), i: nat, before: Option<real>)
    ensures ScoreAfter(entries + [e], i, before) == if e.0 == i then Some(e.1) else ScoreAfter(entries, i, before)
  {
    assert (entries + [e])[..|entries|] == entries;
  }

  lemma PickSnoc(cands: seq<Candidate>, entries: seq<(nat, real)>, e: (nat, real))
    requires forall x :: x in entries ==> x.0 < |cands|
    requires e.0 < |cands|
    ensures Pick(cands, entries + [e]) == Pick(cands, entries) + [cands[e.0]]
  {
    assert (entries + [e])[..|entries|] == entries;
  }

  /** One more hit adds an entry exactly when its id names a candidate. */
  lemma EntriesSnoc(hits: seq<(string, real)>, cands: seq<Candidate>, k: nat, idx: Option<nat>)
    requires k < |hits| && idx == LastIndex(cands, hits[k].0)
    ensures idx.Some? ==> Entries(hits[..k + 1], cands) == Entries(hits[..k], cands) + [(idx.value, 1.0 - hits[k].1)]
    ensures idx.None? ==> Entries(hits[..k + 1], cands) == Entries(hits[..k], cands)
  {
    assert hits[..k + 1][..k] == hits[..k];
  }

  /** The scoring loop over the hits: writes `1 - distance` into each hit candidate. */
  method ScoreHits(hits: seq<(string, real)>, cands: seq<Candidate>) returns (ranked: seq<Candidate>)
    requires Distinct(cands)
    modifies cands
    ensures ranked == Pick(cands, Entries(hits, cands))
    ensures forall i :: 0 <= i < |cands| ==> cands[i].score == ScoreAfter(Entries(hits, cands), i, old(cands[i].score))
  {
    ranked := [];
    for k := 0 to |hits|
      invariant ranked == Pick(cands, Entries(hits[..k], cands))
      invariant forall i :: 0 <= i < |cands| ==> cands[i].score == ScoreAfter(Entries(hits[..k], cands), i, old(cands[i].score))
    {
      ghost var before := Entries(hits[..k], cands);
      var id := hits[k].0;
      var distance := hits[k].1;
      var idx := LastIndex(cands, id);
      EntriesSnoc(hits, cands, k, idx);
      if idx.Some? {
        ghost var e := (idx.value, 1.0 - distance);
        assert Entries(hits[..k + 1], cands) == before + [e];
        cands[idx.value].score := Some(1.0 - distance);
        PickSnoc(cands, before, e);
        ranked := ranked + [cands[idx.value]];
        forall i | 0 <= i < |cands|
          ensures cands[i].score == ScoreAfter(before + [e], i, old(cands[i].score))
        {
          ScoreAfterSnoc(before, e, i, old(cands[i].score));
        }
      } else {
        assert Entries(hits[..k + 1], cands) == before;
      }
    }
    assert hits[..|hits|] == hits;
  }

  /** The hit ids that are candidate ids, in index order. */
  function HitIdsIn(hits: seq<(string, real)>, ids: seq<string>): seq<string>
  {
    if hits == [] then []
    else HitIdsIn(hits[..|hits| - 1], ids) + (if hits[|hits| - 1].0 in ids then [hits[|hits| - 1].0] else [])
  }

  /** The ranked trials are exactly the hits on candidate ids, in index order. */
  lemma {:induction false} RankedFollowIndexOrder(hits: seq<(string, real)>, cands: seq<Candidate>)
    ensures Ids(Pick(cands, Entries(hits, cands))) == HitIdsIn(hits, Ids(cands))
  {
    if hits != [] {
      var init := hits[..|hits| - 1];
      RankedFollowIndexOrder(init, cands);
      var h := hits[|hits| - 1];
      var idx := LastIndex(cands, h.0);
      assert h.0 in Ids(cands) <==> idx.Some? by {
        if h.0 in Ids(cands) {
          var j :| 0 <= j < |cands| && Ids(cands)[j] == h.0;
        }
      }
      var e := Entries(hits, cands);
      var p := Pick(cands, e);
      assert Pick(cands, e[..|e| - |e| + |Entries(init, cands)|]) == Pick(cands, Entries(init, cands)) by {
        assert e[..|Entries(init, cands)|] == Entries(init, cands);
      }
      assert Ids(p) == Ids(Pick(cands, Entries(init, cands))) + (if idx.Some? then [h.0] else []);
    }
  }

  /** Hit ids are distinct: the index holds each document once. */
  predicate DistinctHits(hits: seq<(string, real)>) {
    forall i, j :: 0 <= i < j < |hits| ==> hits[i].0 != hits[j].0
  }

  /** An entry's candidate belongs to a hit with that id, and its score is `1 - distance` of that hit. */
  lemma {:induction false} EntriesFromHits(hits: seq<(string, real)>, cands: seq<Candidate>, k: nat)
    requires k < |Entries(hits, cands)|
    ensures exists j :: 0 <= j < |hits| && hits[j].0 == cands[Entries(hits, cands)[k].0].trialId
                         && Entries(hits, cands)[k].1 == 1.0 - hits[j].1
  {
    var init := hits[..|hits| - 1];
    var ei := Entries(init, cands);
    if k < |ei| {
      EntriesFromHits(init, cands, k);
      var j :| 0 <= j < |init| && init[j].0 == cands[ei[k].0].trialId && ei[k].1 == 1.0 - init[j].1;
      assert hits[j] == init[j];
      assert Entries(hits, cands)[k] == ei[k];
    } else {
      assert hits[|hits| - 1].0 == cands[Entries(hits, cands)[k].0].trialId;
    }
  }

  /** With distinct hit ids no candidate is hit twice, so each ranked trial keeps the score of its own hit. */
  lemma {:induction false} RankedScoresFinal(hits: seq<(string, real)>, cands: seq<Candidate>, k: nat, before: Option<real>)
    requires DistinctHits(hits)
    requires k < |Entries(hits, cands)|
    ensures ScoreAfter(Entries(hits, cands), Entries(hits, cands)[k].0, before) == Some(Entries(hits, cands)[k].1)
  {
    var init := hits[..|hits| - 1];
    var e := Entries(hits, cands);
    var ei := Entries(init, cands);
    assert DistinctHits(init) by {
      forall i, j | 0 <= i < j < |init| ensures init[i].0 != init[j].0 {
        assert init[i] == hits[i] && init[j] == hits[j];
      }
    }
    if k < |ei| {
      assert e[k] == ei[k];
      if |e| > |ei| {
        var h := hits[|hits| - 1];
        assert e[|e| - 1].0 == LastIndex(cands, h.0).value;
        assert e[|e| - 1].0 != e[k].0 by {
          EntriesFromHits(init, cands, k);
          var j :| 0 <= j < |init| && init[j].0 == cands[ei[k].0].trialId && ei[k].1 == 1.0 - init[j].1;
          assert hits[j] == init[j];
        }
        assert e[..|e| - 1] == ei;
      } else {
        assert e == ei;
      }
      RankedScoresFinal(init, cands, k, before);
    }
  }

  // ---------------------------------------------------------------------------
  // The fallback path
  // ---------------------------------------------------------------------------

  /** The number of candidates scored before the first similarity that fails, or all of them. */
  function FirstFailure(cands: seq<Candidate>, similarity: string -> Option<real>): (r: nat)
    ensures r <= |cands|
    ensures forall i :: 0 <= i < r ==> similarity(cands[i].Text()).Some?
    ensures r < |cands| ==> similarity(cands[r].Text()).None?
  {
    if cands == [] then 0
    else if similarity(cands[0].Text()).None? then 0
    else 1 + FirstFailure(cands[1..], similarity)
  }

  function PairScore(p: (Candidate, real)): real { p.1 }

  function Firsts(pairs: seq<(Candidate, real)>): (r: seq<Candidate>)
    ensures |r| == |pairs| && forall i :: 0 <= i < |r| ==> r[i] == pairs[i].0
  {
    if pairs == [] then [] else [pairs[0].0] + Firsts(pairs[1..])
  }

  /** The fallback loop: scores each candidate in turn, stopping at the first failure. */
  method ScoreAll(cands: seq<Candidate>, similarity: string -> Option<real>) returns (ok: bool, pairs: seq<(Candidate, real)>)
    requires Distinct(cands)
    modifies cands
    ensures ok <==> FirstFailure(cands, similarity) == |cands|
    ensures forall i :: 0 <= i < |cands| ==>
      cands[i].score == (if i < FirstFailure(cands, similarity) then similarity(cands[i].Text()) else old(cands[i].score))
    ensures ok ==> |pairs| == |cands| && forall i :: 0 <= i < |cands| ==> pairs[i] == (cands[i], similarity(cands[i].Text()).value)
  {
    var f := FirstFailure(cands, similarity);
    pairs := [];
    for i := 0 to |cands|
      invariant i <= f
      invariant |pairs| == i && forall j :: 0 <= j < i ==> pairs[j] == (cands[j], similarity(cands[j].Text()).value)
      invariant forall j :: 0 <= j < |cands| ==> cands[j].score == (if j < i then similarity(cands[j].Text()) else old(cands[j].score))
    {
      var s := similarity(cands[i].Text());
      if s.None? {
        return false, pairs;
      }
      cands[i].score := Some(s.value);
      pairs := pairs + [(cands[i], s.value)];
    }
    ok := true;
  }

  /** `ranked_trials[:top_k]` when `top_k` is a positive number, else all of them. */
  function TopK<T>(xs: seq<T>, topK: Option<int>): (r: seq<T>)
    ensures topK.Some? && topK.value > 0 ==> |r| == (if topK.value < |xs| then topK.value else |xs|)
    ensures !(topK.Some? && topK.value > 0) ==> r == xs
    ensures r == xs[..|r|]
  {
    if topK.Some? && topK.value > 0 then TakePy(xs, topK.value) else xs
  }

  /** The fallback order: by score, highest first, equal scores in candidate order, nothing lost. */
  lemma FallbackOrder(pairs: seq<(Candidate, real)>)
    ensures multiset(Sorting.SortDesc(pairs, PairScore, Sorting.RealLess)) == multiset(pairs)
    ensures forall i, j :: 0 <= i < j < |pairs| ==>
      Sorting.SortDesc(pairs, PairScore, Sorting.RealLess)[i].1 >= Sorting.SortDesc(pairs, PairScore, Sorting.RealLess)[j].1
    ensures forall s :: Sorting.KeyFilter(Sorting.SortDesc(pairs, PairScore, Sorting.RealLess), PairScore, s)
                     == Sorting.KeyFilter(pairs, PairScore, s)
  {
    Sorting.RealLessStrictTotal();
    Sorting.SortDescSpec(pairs, PairScore, Sorting.RealLess);
    var s := Sorting.SortDesc(pairs, PairScore, Sorting.RealLess);
    forall i, j | 0 <= i < j < |pairs| ensures s[i].1 >= s[j].1 {
      assert !Sorting.RealLess(PairScore(s[i]), PairScore(s[j]));
    }
  }

  // ---------------------------------------------------------------------------
  // rank_matched_trials
  // ---------------------------------------------------------------------------

  datatype RankPath = EmptyInput | CollectionMissing | CollectionError | Semantic | Fallback | FallbackFailed

  /** The fallback: score all, sort, cut to `top_k`; on a failure the candidates come back unranked. */
  method RankFallback(cands: seq<Candidate>, similarity: string -> Option<real>, topK: Option<int>)
    returns (ranked: seq<Candidate>, path: RankPath)
    requires Distinct(cands)
    modifies cands
    ensures path == Fallback || path == FallbackFailed
    ensures path == Fallback <==> FirstFailure(cands, similarity) == |cands|
    ensures forall i :: 0 <= i < |cands| ==>
      cands[i].score == (if i < FirstFailure(cands, similarity) then similarity(cands[i].Text()) else old(cands[i].score))
    ensures path == FallbackFailed ==> ranked == cands
    ensures path == Fallback ==> exists pairs: seq<(Candidate, real)> ::
      && |pairs| == |cands|
      && (forall i :: 0 <= i < |cands| ==> pairs[i] == (cands[i], similarity(cands[i].Text()).value))
      && ranked == TopK(Firsts(Sorting.SortDesc(pairs, PairScore, Sorting.RealLess)), topK)
  {
    var ok, pairs := ScoreAll(cands, similarity);
    if !ok {
      return cands, FallbackFailed;
    }
    var sorted := Sorting.SortDesc(pairs, PairScore, Sorting.RealLess);
    ranked := TopK(Firsts(sorted), topK);
    path := Fallback;
  }

  /**
   * `rank_matched_trials`: the empty input, a missing or failing collection,
   * the primary path over the retrieved hits, and the fallback.
   */
  method RankMatchedTrials(
    cands: seq<Candidate>, collection: Collection,
    filtered: QueryResult, retry: QueryResult, alternative: QueryResult,
    similarity: string -> Option<real>, topK: Option<int>)
    returns (ranked: seq<Candidate>, path: RankPath)
    requires Distinct(cands)
    modifies cands
    ensures cands == [] <==> path == EmptyInput
    ensures path in {EmptyInput, CollectionMissing, CollectionError, FallbackFailed} ==> ranked == cands
    ensures path == CollectionMissing <==> cands != [] && collection.NotListed?
    ensures path == CollectionError <==> cands != [] && collection.OpenFails?
    ensures path in {EmptyInput, CollectionMissing, CollectionError} ==>
      forall i :: 0 <= i < |cands| ==> cands[i].score == old(cands[i].score)
    ensures path == Semantic <==> cands != [] && collection.Opened? && HasHits(Retrieved(Ids(cands), filtered, retry, alternative))
    ensures path == Semantic ==>
      var e := Entries(Retrieved(Ids(cands), filtered, retry, alternative).hits, cands);
      && ranked == TopK(Pick(cands, e), topK)
      && forall i :: 0 <= i < |cands| ==> cands[i].score == ScoreAfter(e, i, old(cands[i].score))
    ensures path in {Fallback, FallbackFailed} ==>
      && cands != [] && collection.Opened? && !HasHits(Retrieved(Ids(cands), filtered, retry, alternative))
      && (path == Fallback <==> FirstFailure(cands, similarity) == |cands|)
      && forall i :: 0 <= i < |cands| ==>
        cands[i].score == (if i < FirstFailure(cands, similarity) then similarity(cands[i].Text()) else old(cands[i].score))
    ensures path == Fallback ==> exists pairs: seq<(Candidate, real)> ::
      && |pairs| == |cands|
      && (forall i :: 0 <= i < |cands| ==> pairs[i] == (cands[i], similarity(cands[i].Text()).value))
      && ranked == TopK(Firsts(Sorting.SortDesc(pairs, PairScore, Sorting.RealLess)), topK)
  {
    if cands == [] {
      return [], EmptyInput;
    }
    var trialIds := Ids(cands);
    if collection.NotListed? {
      return cands, CollectionMissing;
    }
    if collection.OpenFails? {
      return cands, CollectionError;
    }
    var results := Retrieve(trialIds, filtered, retry, alternative);
    if HasHits(results) {
      var scored := ScoreHits(results.hits, cands);
      ranked := TopK(scored, topK);
      path := Semantic;
    } else {
      ranked, path := RankFallback(cands, similarity, topK);
    }
  }
}
