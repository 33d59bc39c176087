/**
 * The HTTP handlers of app/api/routes.py reduced to their decision rules:
 * which service call is made, what is saved, and what is answered. Routing,
 * request parsing and response serialisation are not modelled.
 */
module Routes {
  import opened Wrappers
  import opened Domain
  import opened PyText
  import opened Analyzer
  import opened Repository

  /** `AnalysisResponse`: the fields returned to the client. */
  datatype AnalysisResponse = AnalysisResponse(id: string, summary: string, nextActions: seq<string>)

  /**
   * What a handler ends with: a response body, an `HTTPException` with its
   * status code and detail, or an exception the handler does not catch (which
   * the web framework, outside this model, turns into a server error).
   */
  datatype Reply<T> = Ok(body: T) | HttpError(status: int, detail: string) | Uncaught(error: Exception)

  const BadRequest := 400
  const NotFound := 404
  const NoTranscriptsMessage := "Provide at least one non-empty transcript"
  const NotFoundMessage := "Analysis not found"

  /** The response built from a stored analysis. */
  function ToResponse(a: TranscriptAnalysis): AnalysisResponse
  {
    AnalysisResponse(a.id, a.summary, a.nextActions)
  }

  /** The batch response: one entry per analysis, in the same order, copying its fields. */
  function ToResponses(analyses: seq<TranscriptAnalysis>): (r: seq<AnalysisResponse>)
    ensures |r| == |analyses|
    ensures forall i :: 0 <= i < |analyses| ==>
              r[i].id == analyses[i].id && r[i].summary == analyses[i].summary
              && r[i].nextActions == analyses[i].nextActions
  {
    if analyses == [] then [] else [ToResponse(analyses[0])] + ToResponses(analyses[1..])
  }

  /**
   * The batch filter `[t for t in transcripts if t and t.strip()]`: the
   * transcripts that pass the service's guard, in their original order.
   */
  function KeepAnalyzable(ts: seq<string>): (r: seq<string>)
    ensures |r| <= |ts|
    ensures forall i :: 0 <= i < |r| ==> IsAnalyzable(r[i])
    ensures forall t :: t in r <==> t in ts && IsAnalyzable(t)
    ensures (forall i :: 0 <= i < |ts| ==> IsAnalyzable(ts[i])) ==> r == ts
  {
    if ts == [] then []
    else
      var rest := KeepAnalyzable(ts[1..]);
      assert forall i :: 1 <= i < |ts| ==> ts[1..][i - 1] == ts[i];
      if IsAnalyzable(ts[0]) then [ts[0]] + rest else rest
  }

  /** Nothing survives the filter exactly when no transcript passes the guard (including an empty list). */
  lemma KeepAnalyzableEmpty(ts: seq<string>)
    ensures KeepAnalyzable(ts) == [] <==> forall i :: 0 <= i < |ts| ==> !IsAnalyzable(ts[i])
  {
  }

  /** The filter works element by element: filtering a concatenation concatenates the filtered parts. */
  lemma {:induction false} KeepAnalyzableAppend(a: seq<string>, b: seq<string>)
    ensures KeepAnalyzable(a + b) == KeepAnalyzable(a) + KeepAnalyzable(b)
  {
    if a != [] {
      assert (a + b)[1..] == a[1..] + b;
      KeepAnalyzableAppend(a[1..], b);
    } else {
      assert a + b == b;
    }
  }

  /**
   * `analyze_transcript_get` and `analyze_transcript_post` (identical bodies):
   * a `ValueError` from the service becomes 400 with its message and nothing
   * is saved; any other exception escapes; on success the analysis is saved and
   * returned.
   */
  method AnalyzeTranscript(adapter: Adapter, transcript: string, id: string, repo: InMemoryTranscriptRepository)
    returns (reply: Reply<AnalysisResponse>, called: Option<string>)
    requires repo.Valid()
    modifies repo
    ensures repo.Valid()
    ensures called == CallOf(adapter, transcript)
    ensures !IsAnalyzable(transcript) ==>
              reply == HttpError(BadRequest, EmptyTranscriptMessage) && repo.store == old(repo.store)
    ensures var o := AnalysisOf(adapter, transcript, id);
            && (o.Success? ==> reply == Ok(ToResponse(o.value)) && repo.store == Saved(old(repo.store), o.value))
            && (o.Failure? && o.error.ValueError? ==>
                  reply == HttpError(BadRequest, o.error.message) && repo.store == old(repo.store))
            && (o.Failure? && !o.error.ValueError? ==> reply == Uncaught(o.error) && repo.store == old(repo.store))
  {
    var outcome;
    outcome, called := Analyze(adapter, transcript, id);
    match outcome
    case Failure(e) =>
      if e.ValueError? {
        return HttpError(BadRequest, e.message), called;
      }
      return Uncaught(e), called;
    case Success(analysis) =>
      repo.Save(analysis);
      reply := Ok(ToResponse(analysis));
  }

  /** `get_analysis_by_id`: 404 when nothing is stored under the id, otherwise the stored fields. */
  method GetAnalysisById(repo: InMemoryTranscriptRepository, analysisId: string) returns (reply: Reply<AnalysisResponse>)
    requires repo.Valid()
    ensures reply.Ok? ==> reply.body.id == analysisId
    ensures analysisId !in repo.store ==> reply == HttpError(NotFound, NotFoundMessage)
    ensures analysisId in repo.store ==>
              && reply.Ok?
              && reply.body.id == repo.store[analysisId].id
              && reply.body.summary == repo.store[analysisId].summary
              && reply.body.nextActions == repo.store[analysisId].nextActions
  {
    var analysis := repo.Get(analysisId);
    if analysis.None? {
      return HttpError(NotFound, NotFoundMessage);
    }
    reply := Ok(ToResponse(analysis.value));
  }

  /**
   * `analyze_batch`: keeps the transcripts that pass the guard; with none left,
   * answers 400 without calling the service or saving anything; otherwise runs
   * `analyze_many`, saves every analysis in order, and answers one entry per
   * analysis. A service failure escapes uncaught, with nothing saved.
   * `ids` supplies the identifiers the service would draw for the kept items.
   */
  method AnalyzeBatch(adapter: Adapter, transcripts: Option<seq<string>>, ids: seq<string>, repo: InMemoryTranscriptRepository)
    returns (reply: Reply<seq<AnalysisResponse>>, called: seq<Option<string>>)
    requires |ids| >= |transcripts.GetOr([])|
    requires repo.Valid()
    modifies repo
    ensures repo.Valid()
    ensures var kept := KeepAnalyzable(transcripts.GetOr([]));
            kept == [] ==> reply == HttpError(BadRequest, NoTranscriptsMessage) && called == []
                           && repo.store == old(repo.store)
    ensures var kept := KeepAnalyzable(transcripts.GetOr([]));
            kept != [] ==> |called| == |kept| && forall i :: 0 <= i < |kept| ==> called[i] == FirstCandidate(adapter)
    ensures var kept := KeepAnalyzable(transcripts.GetOr([]));
            var o := AnalysesOf(adapter, kept, ids);
            kept != [] ==>
              && (o.Success? ==> reply == Ok(ToResponses(o.value)) && repo.store == SaveAll(old(repo.store), o.value))
              && (o.Failure? ==> reply == Uncaught(o.error) && repo.store == old(repo.store))
  {
    var kept := KeepAnalyzable(transcripts.GetOr([]));
    if kept == [] {
      return HttpError(BadRequest, NoTranscriptsMessage), [];
    }
    var outcome;
    outcome, called := AnalyzeMany(adapter, kept, ids);
    if outcome.Failure? {
      return Uncaught(outcome.error), called;
    }
    var analyses := outcome.value;
    for i := 0 to |analyses|
      invariant repo.Valid()
      invariant repo.store == SaveAll(old(repo.store), analyses[..i])
    {
      assert analyses[..i + 1][..i] == analyses[..i];
      repo.Save(analyses[i]);
    }
    assert analyses[..|analyses|] == analyses;
    reply := Ok(ToResponses(analyses));
  }

  /**
   * After a successful batch with distinct identifiers, every returned
   * analysis can be looked up under its id.
   */
  lemma BatchResultsRetrievable(adapter: Adapter, kept: seq<string>, ids: seq<string>, store: map<string, TranscriptAnalysis>)
    requires |ids| >= |kept|
    requires forall i, j :: 0 <= i < j < |kept| ==> ids[i] != ids[j]
    requires AnalysesOf(adapter, kept, ids).Success?
    ensures var analyses := AnalysesOf(adapter, kept, ids).value;
            && |analyses| == |kept|
            && forall i :: 0 <= i < |kept| ==>
              analyses[i].id == ids[i] && analyses[i].id in SaveAll(store, analyses)
              && SaveAll(store, analyses)[analyses[i].id] == analyses[i]
  {
    var analyses := AnalysesOf(adapter, kept, ids).value;
    AnalysesOfPerItem(adapter, kept, ids);
    SaveAllDistinct(store, analyses);
  }
}
