/**
 * The transcript analysis service (app/services/analyzer.py): the input guard,
 * prompt rendering, first-match dispatch onto the language-model adapter,
 * normalisation of whatever the adapter returns, and the batch operation.
 */
module Analyzer {
  import opened Wrappers
  import opened Domain
  import opened PyText

  /** The exceptions the service raises or lets through. */
  datatype Exception =
    | ValueError(message: string)
    | RuntimeError(message: string)
    | OtherError(typeName: string, message: string)

  const EmptyTranscriptMessage := "Transcript cannot be empty"
  const CouldNotCallMessage :=
    "Could not call LLM adapter. Ensure app/ports/llm.py method name and signature are wired in services/analyzer.py"
  const UnexpectedTypeMessage :=
    "Unexpected LLM adapter return type; expected DTO with 'summary' and 'next_actions'."

  /**
   * The two fields the service looks for, either as attributes of the returned
   * object or as keys of a returned dict: `None` when the attribute or key is absent.
   */
  datatype Fields = Fields(summary: Option<string>, nextActions: Option<seq<string>>)

  /**
   * What an adapter call yields once awaited. `NoneValue` is Python's `None`. Any
   * other object is described by the attributes it has and, when it is a `dict`
   * (`isinstance(result, dict)`), by the entries under the two keys.
   */
  datatype AdapterValue =
    | NoneValue
    | Value(attrs: Fields, mapping: Option<Fields>)

  /** An adapter call either returns a value or raises. */
  datatype CallOutcome = Returns(value: AdapterValue) | Raises(error: Exception)

  /**
   * The adapter, seen through `hasattr`/`getattr`: each attribute name it has,
   * with the call it performs on `(system_prompt, user_prompt)`.
   */
  datatype Adapter = Adapter(methods: map<string, (string, string) -> CallOutcome>)

  /** The method names tried on the adapter, in order. */
  const Candidates: seq<string> := ["structured_output", "analyze", "run", "call"]

  /** The system prompt (the fallback text used when `app.prompts` has no `SYSTEM_PROMPT`). */
  const SystemPrompt := "You are an assistant that summarizes transcripts and extracts next actions."

  /** The user-prompt template, split around its single `{transcript}` placeholder. */
  const UserPromptHead := "Analyze the following transcript and return a short summary and 3-7 next actions.\n\nTranscript:\n"
  const UserPromptTail := ""

  /** `user_prompt_tmpl.format(transcript=t)`: the template with `t` in place of the placeholder. */
  function RenderUserPrompt(t: string): string
  {
    UserPromptHead + t + UserPromptTail
  }

  /** The transcript can be read back from the rendered prompt, so distinct transcripts give distinct prompts. */
  lemma RenderUserPromptInverse(t: string)
    ensures |RenderUserPrompt(t)| == |UserPromptHead| + |t| + |UserPromptTail|
    ensures RenderUserPrompt(t)[|UserPromptHead|..|UserPromptHead| + |t|] == t
  {
  }

  /** The index of the first of `names` that is in `present`, if any. */
  function FirstPresent(names: seq<string>, present: set<string>): (r: Option<nat>)
    ensures r.Some? ==> r.value < |names| && names[r.value] in present
    ensures r.Some? ==> forall j :: 0 <= j < r.value ==> names[j] !in present
    ensures r.None? <==> forall j :: 0 <= j < |names| ==> names[j] !in present
  {
    if names == [] then None
    else if names[0] in present then Some(0)
    else match FirstPresent(names[1..], present)
      case None => None
      case Some(k) => Some(k + 1)
  }

  /** The name of the adapter method the service calls: the first candidate the adapter has. */
  function FirstCandidate(adapter: Adapter): (r: Option<string>)
    ensures r.Some? ==> r.value in adapter.methods
    ensures r.Some? ==> exists i :: 0 <= i < |Candidates| && Candidates[i] == r.value
                                    && forall j :: 0 <= j < i ==> Candidates[j] !in adapter.methods
    ensures r.None? <==> forall j :: 0 <= j < |Candidates| ==> Candidates[j] !in adapter.methods
  {
    match FirstPresent(Candidates, adapter.methods.Keys)
    case None => None
    case Some(i) => Some(Candidates[i])
  }

  /** The outcome of the dispatch: the chosen method's call, or `None` when no candidate exists. */
  function Invoke(adapter: Adapter, t: string): CallOutcome
  {
    match FirstCandidate(adapter)
    case None => Returns(NoneValue)
    case Some(name) => adapter.methods[name](SystemPrompt, RenderUserPrompt(t))
  }

  /** True when the object has both a `summary` and a `next_actions` attribute. */
  predicate HasBothAttributes(v: AdapterValue)
  {
    v.Value? && v.attrs.summary.Some? && v.attrs.nextActions.Some?
  }

  /**
   * Turns the adapter's value into `(summary, next_actions)`: attributes first,
   * then a dict read with defaults, otherwise `RuntimeError`.
   */
  function Normalise(v: AdapterValue): (r: Result<(string, seq<string>), Exception>)
    ensures r.Failure? <==> v.NoneValue? || (!HasBothAttributes(v) && v.mapping.None?)
    ensures v.NoneValue? ==> r == Failure(RuntimeError(CouldNotCallMessage))
    ensures v.Value? && !HasBothAttributes(v) && v.mapping.None? ==> r == Failure(RuntimeError(UnexpectedTypeMessage))
    ensures HasBothAttributes(v) ==> r == Success((v.attrs.summary.value, v.attrs.nextActions.value))
    ensures v.Value? && !HasBothAttributes(v) && v.mapping.Some? ==>
              r == Success((v.mapping.value.summary.GetOr(""), v.mapping.value.nextActions.GetOr([])))
  {
    match v
    case NoneValue => Failure(RuntimeError(CouldNotCallMessage))
    case Value(attrs, mapping) =>
      if attrs.summary.Some? && attrs.nextActions.Some? then
        Success((attrs.summary.value, attrs.nextActions.value))
      else if mapping.Some? then
        Success((mapping.value.summary.GetOr(""), mapping.value.nextActions.GetOr([])))
      else
        Failure(RuntimeError(UnexpectedTypeMessage))
  }

  /** An object returned as a DTO and a dict with the same two entries normalise to the same pair. */
  lemma DtoAndDictAgree(summary: string, actions: seq<string>)
    ensures Normalise(Value(Fields(Some(summary), Some(actions)), None)) == Success((summary, actions))
    ensures Normalise(Value(Fields(None, None), Some(Fields(Some(summary), Some(actions))))) == Success((summary, actions))
  {
  }

  /** A dict never fails normalisation; a dict with neither key yields `("", [])`. */
  lemma DictNeverFails(attrs: Fields, entries: Fields)
    ensures Normalise(Value(attrs, Some(entries))).Success?
    ensures !HasBothAttributes(Value(attrs, Some(entries))) && entries == Fields(None, None) ==>
              Normalise(Value(attrs, Some(entries))) == Success(("", []))
  {
  }

  /** `_call_llm_structured_output` as a value: dispatch, propagate what the adapter raises, normalise. */
  function StructuredOutput(adapter: Adapter, t: string): Result<(string, seq<string>), Exception>
  {
    match Invoke(adapter, t)
    case Raises(e) => Failure(e)
    case Returns(v) => Normalise(v)
  }

  /**
   * `_call_llm_structured_output`: tries the candidate names in order, calls the
   * first one the adapter has and no other, and normalises the result.
   * `called` is the adapter method actually invoked.
   */
  method CallLlmStructuredOutput(adapter: Adapter, transcript: string)
    returns (r: Result<(string, seq<string>), Exception>, called: Option<string>)
    ensures called == FirstCandidate(adapter)
    ensures r == StructuredOutput(adapter, transcript)
  {
    var userPrompt := RenderUserPrompt(transcript);
    var result := Returns(NoneValue);
    called := None;
    var i := 0;
    while i < |Candidates|
      invariant 0 <= i <= |Candidates|
      invariant called == None && result == Returns(NoneValue)
      invariant forall j :: 0 <= j < i ==> Candidates[j] !in adapter.methods
    {
      var name := Candidates[i];
      if name in adapter.methods {
        result := adapter.methods[name](SystemPrompt, userPrompt);
        called := Some(name);
        break;
      }
      i := i + 1;
    }
    match result
    case Raises(e) => r := Failure(e);
    case Returns(v) => r := Normalise(v);
  }

  /** The adapter method `analyze(t)` invokes: none when the guard rejects `t`. */
  function CallOf(adapter: Adapter, t: string): Option<string>
  {
    if IsAnalyzable(t) then FirstCandidate(adapter) else None
  }

  /** The outcome of `analyze(t)` when the new analysis is given identifier `id`. */
  function AnalysisOf(adapter: Adapter, t: string, id: string): Result<TranscriptAnalysis, Exception>
  {
    if !IsAnalyzable(t) then Failure(ValueError(EmptyTranscriptMessage))
    else match StructuredOutput(adapter, t)
      case Failure(e) => Failure(e)
      case Success(out) => Success(NewAnalysis(id, out.0, out.1))
  }

  /**
   * `analyze`: rejects an empty or whitespace-only transcript with `ValueError`
   * before touching the adapter, otherwise builds a new analysis from the
   * normalised adapter output.
   */
  method Analyze(adapter: Adapter, transcript: string, id: string)
    returns (r: Result<TranscriptAnalysis, Exception>, called: Option<string>)
    ensures r == AnalysisOf(adapter, transcript, id)
    ensures called == CallOf(adapter, transcript)
    ensures !IsAnalyzable(transcript) ==> r == Failure(ValueError(EmptyTranscriptMessage)) && called == None
    ensures r.Success? ==> r.value.id == id
                           && StructuredOutput(adapter, transcript) == Success((r.value.summary, r.value.nextActions))
  {
    if |transcript| == 0 || Strip(transcript) == [] {
      return Failure(ValueError(EmptyTranscriptMessage)), None;
    }
    var out;
    out, called := CallLlmStructuredOutput(adapter, transcript);
    match out
    case Failure(e) => r := Failure(e);
    case Success(pair) => r := Success(NewAnalysis(id, pair.0, pair.1));
  }

  /** A blank transcript fails with `ValueError` and no adapter method is invoked, whatever the adapter. */
  lemma BlankTranscriptRejected(adapter: Adapter, t: string, id: string)
    requires IsBlank(t)
    ensures AnalysisOf(adapter, t, id) == Failure(ValueError(EmptyTranscriptMessage))
    ensures CallOf(adapter, t) == None
  {
    StripEmptyIffBlank(t);
  }

  /** With no candidate method on the adapter, a non-blank transcript fails with `RuntimeError`. */
  lemma NoCandidateFails(adapter: Adapter, t: string, id: string)
    requires IsAnalyzable(t)
    requires forall j :: 0 <= j < |Candidates| ==> Candidates[j] !in adapter.methods
    ensures AnalysisOf(adapter, t, id) == Failure(RuntimeError(CouldNotCallMessage))
  {
  }

  /**
   * When the chosen method returns a DTO or a dict carrying `summary` and
   * `next_actions`, the analysis carries exactly those values and the given id.
   */
  lemma AnalysisCarriesAdapterFields(adapter: Adapter, t: string, id: string, summary: string, actions: seq<string>)
    requires IsAnalyzable(t)
    requires FirstCandidate(adapter).Some?
    requires var out := Invoke(adapter, t);
             out == Returns(Value(Fields(Some(summary), Some(actions)), None))
             || out == Returns(Value(Fields(None, None), Some(Fields(Some(summary), Some(actions)))))
    ensures AnalysisOf(adapter, t, id) == Success(TranscriptAnalysis(id, summary, actions))
  {
  }

  /**
   * What `asyncio.gather` makes of the per-item outcomes: all values in order,
   * or the error of the first item (in input order) that failed.
   */
  function Gather<T, E>(items: seq<Result<T, E>>): Result<seq<T>, E>
  {
    if items == [] then Success([])
    else
      match Gather(items[..|items| - 1])
      case Failure(e) => Failure(e)
      case Success(done) =>
        match items[|items| - 1]
        case Failure(e) => Failure(e)
        case Success(a) => Success(done + [a])
  }

  /**
   * Gathering is all-or-nothing and order-preserving: it succeeds exactly when
   * every item does, with `result[i]` the value of item `i`; otherwise its
   * error is that of the first failing item.
   */
  lemma {:induction false} GatherPerItem<T, E>(items: seq<Result<T, E>>)
    ensures Gather(items).Success? <==> forall i :: 0 <= i < |items| ==> items[i].Success?
    ensures Gather(items).Success? ==> |Gather(items).value| == |items|
    ensures Gather(items).Success? ==> forall i :: 0 <= i < |items| ==> Gather(items).value[i] == items[i].value
    ensures Gather(items).Failure? ==>
              exists k :: 0 <= k < |items| && items[k] == Failure(Gather(items).error)
                          && forall j :: 0 <= j < k ==> items[j].Success?
  {
    if items != [] {
      var n := |items| - 1;
      var prefix := items[..n];
      GatherPerItem(prefix);
      assert forall i :: 0 <= i < n ==> prefix[i] == items[i];
      if Gather(prefix).Failure? {
        var k :| 0 <= k < n && prefix[k] == Failure(Gather(prefix).error)
                 && forall j :: 0 <= j < k ==> prefix[j].Success?;
        assert items[k] == Failure(Gather(items).error);
      }
    }
  }

  /** The per-item outcomes of `analyze_many(ts)`, item `i` receiving identifier `ids[i]`. */
  function ItemOutcomes(adapter: Adapter, ts: seq<string>, ids: seq<string>): (r: seq<Result<TranscriptAnalysis, Exception>>)
    requires |ids| >= |ts|
    ensures |r| == |ts|
    ensures forall i :: 0 <= i < |ts| ==> r[i] == AnalysisOf(adapter, ts[i], ids[i])
  {
    seq(|ts|, i requires 0 <= i < |ts| => AnalysisOf(adapter, ts[i], ids[i]))
  }

  /** The outcome of `analyze_many(ts)`. */
  function AnalysesOf(adapter: Adapter, ts: seq<string>, ids: seq<string>): Result<seq<TranscriptAnalysis>, Exception>
    requires |ids| >= |ts|
  {
    Gather(ItemOutcomes(adapter, ts, ids))
  }

  /**
   * `analyze_many` is all-or-nothing and order-preserving: it succeeds exactly
   * when every transcript's `analyze` does, and then `result[i]` is the
   * analysis of `ts[i]`; otherwise it fails with the first failing item's error.
   */
  lemma AnalysesOfPerItem(adapter: Adapter, ts: seq<string>, ids: seq<string>)
    requires |ids| >= |ts|
    ensures var r := AnalysesOf(adapter, ts, ids);
            && (r.Success? <==> forall i :: 0 <= i < |ts| ==> AnalysisOf(adapter, ts[i], ids[i]).Success?)
            && (r.Success? ==> |r.value| == |ts|
                               && forall i :: 0 <= i < |ts| ==> r.value[i] == AnalysisOf(adapter, ts[i], ids[i]).value)
            && (r.Failure? ==> exists k :: 0 <= k < |ts| && AnalysisOf(adapter, ts[k], ids[k]) == Failure(r.error)
                                           && forall j :: 0 <= j < k ==> AnalysisOf(adapter, ts[j], ids[j]).Success?)
  {
    var items := ItemOutcomes(adapter, ts, ids);
    GatherPerItem(items);
    if AnalysesOf(adapter, ts, ids).Failure? {
      var k :| 0 <= k < |items| && items[k] == Failure(Gather(items).error)
               && forall j :: 0 <= j < k ==> items[j].Success?;
      assert AnalysisOf(adapter, ts[k], ids[k]) == Failure(AnalysesOf(adapter, ts, ids).error);
    }
  }

  /**
   * `analyze_many`: one `analyze` per transcript; every item's adapter call is
   * made, and the batch fails if any item fails. `called[i]` is the adapter
   * method invoked for `transcripts[i]`.
   */
  method AnalyzeMany(adapter: Adapter, transcripts: seq<string>, ids: seq<string>)
    returns (r: Result<seq<TranscriptAnalysis>, Exception>, called: seq<Option<string>>)
    requires |ids| >= |transcripts|
    ensures r == AnalysesOf(adapter, transcripts, ids)
    ensures |called| == |transcripts|
    ensures forall i :: 0 <= i < |transcripts| ==> called[i] == CallOf(adapter, transcripts[i])
  {
    r := Success([]);
    called := [];
    ghost var outcomes: seq<Result<TranscriptAnalysis, Exception>> := [];
    for i := 0 to |transcripts|
      invariant |outcomes| == i && |called| == i
      invariant forall j :: 0 <= j < i ==> outcomes[j] == AnalysisOf(adapter, transcripts[j], ids[j])
      invariant forall j :: 0 <= j < i ==> called[j] == CallOf(adapter, transcripts[j])
      invariant r == Gather(outcomes)
    {
      var item, c := Analyze(adapter, transcripts[i], ids[i]);
      ghost var next := outcomes + [item];
      assert next[..|next| - 1] == outcomes;
      if r.Success? {
        match item
        case Failure(e) => r := Failure(e);
        case Success(a) => r := Success(r.value + [a]);
      }
      outcomes := next;
      called := called + [c];
    }
    assert outcomes == ItemOutcomes(adapter, transcripts, ids);
  }
}
