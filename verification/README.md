# Transcript Analyzer API — a Dafny model

The Transcript Analyzer API takes a plain-text transcript and asks a language-model adapter for a summary and a list of next actions. It stores the result in an in-memory repository and returns it. This project models the three parts of the service that carry logic, and proves what each one promises:

- **The analysis service** (`app/services/analyzer.py`), in `analyzer.dfy` with `text.dfy`:
  - the guard: an empty or whitespace-only transcript raises `ValueError` before the adapter is touched;
  - prompt rendering;
  - dispatch: the service calls the first adapter method out of `structured_output`, `analyze`, `run` and `call` that the adapter has, and no other. This is a loop with `break`, modelled as a method with invariants and proved against a first-match function;
  - normalisation of what the adapter returns: a `summary`/`next_actions` object, a dict read with defaults, or `RuntimeError`;
  - the all-or-nothing, order-preserving batch `analyze_many`.
- **The repository** (`app/repositories/memory.py`), in `repository.dfy`: a class with a `map` field that `Save` updates in place and `Get` only reads. It comes with value-level lemmas about saving several analyses in order.
- **The route handlers** (`app/api/routes.py`), in `routes.dfy`: the handlers are methods over the repository object. The analyze handlers take the adapter and the identifiers the service would draw, call the service model and save. The lookup handler only reads the repository. Each handler ends in a response body, an HTTP error with status and detail, or an exception it does not catch.

The domain record `TranscriptAnalysis` (`app/domain/models.py`) is in `domain.dfy`. `Option` and `Result` are in `wrappers.dfy`.

Modelling choices:

- The adapter is a map from attribute name to the call it performs on `(system_prompt, user_prompt)`. A call either returns a value or raises.
- A returned value is Python's `None`, or an object described by two things:
  - which of the `summary` / `next_actions` attributes it has;
  - whether it is a `dict`, and if so, what it holds under those two keys.

  So a dict subclass that also has both attributes is covered, and attributes then take precedence, as in the code.
- Whitespace is Python's `str.isspace`, written out as its list of code points. `str.strip()` is modelled as strip-leading followed by strip-trailing.
- The identifier `uuid4` would draw is a parameter. For `analyze_many`, it is a sequence whose `i`-th element goes to the `i`-th transcript. In the batch handler, the `i`-th element goes to the `i`-th transcript that passes the filter.

Error behaviour of the code, as modelled:

- The service raises `ValueError` for a blank transcript. It raises `RuntimeError` when no adapter method can be called or the call yields `None`. It also raises `RuntimeError` when the result is neither an object with both a `summary` and a `next_actions` attribute nor a `dict`; an object with only one of the two attributes raises.
- A dict holding neither key normalises to `("", [])` and does not fail. Nothing enforces a non-empty summary.
- The single-transcript handlers turn any `ValueError` into 400, including one raised by the adapter itself. The batch handler catches nothing, so every service failure escapes it.
- `ValueError(...)` in the model stands for `ValueError` and all of its subclasses (such as `json.JSONDecodeError`), since `except ValueError` catches those too. `OtherError(...)` is any exception outside that family.

## Model

| member | source | states |
|---|---|---|
| Domain.NewAnalysis | app/domain/models.py:15-17 | a new analysis carries the supplied id and exactly the given summary and next actions |
| PyText.StripLeadingSpec | app/services/analyzer.py:17 | left-stripping drops only whitespace and leaves a suffix that is empty or starts with a non-whitespace character |
| PyText.StripTrailingSpec | app/services/analyzer.py:17 | right-stripping drops only whitespace and leaves a prefix that is empty or ends with a non-whitespace character |
| PyText.StripEmptyIffBlank | app/services/analyzer.py:17-18 | `s.strip()` is empty if and only if every character of `s` is whitespace |
| PyText.AnalyzableIffVisibleChar | app/services/analyzer.py:17-18 | the guard `t and t.strip()` holds if and only if `t` has a non-whitespace character |
| Analyzer.RenderUserPromptInverse | app/services/analyzer.py:59-64 | the transcript can be read back from the rendered user prompt at the placeholder's position |
| Analyzer.FirstPresent | app/services/analyzer.py:74-79 | the index found is the first name that is present; none is found exactly when no name is present |
| Analyzer.FirstCandidate | app/services/analyzer.py:67-79 | the chosen method is one the adapter has, and every candidate before it in the order structured_output, analyze, run, call is absent; there is no choice exactly when all four are absent |
| Analyzer.CallLlmStructuredOutput | app/services/analyzer.py:64-101 | the loop calls exactly the first candidate the adapter has, and no other; the result is that call's outcome, normalised, or a raised exception passed through |
| Analyzer.Normalise | app/services/analyzer.py:86-101 | `None` raises RuntimeError (could not call). Both attributes win and are returned as is. Otherwise a dict is read with defaults "" and []. Anything else raises RuntimeError (unexpected type). It fails exactly in the first and last cases |
| Analyzer.DtoAndDictAgree | app/services/analyzer.py:93-99 | a DTO object and a dict holding the same summary and next actions normalise to the same pair |
| Analyzer.DictNeverFails | app/services/analyzer.py:97-99 | a dict result never raises; a dict with neither key gives ("", []) |
| Analyzer.Analyze | app/services/analyzer.py:16-23 | a blank transcript gives ValueError("Transcript cannot be empty") and invokes no adapter method; otherwise the adapter method invoked is the first candidate. On success the analysis has the supplied id and exactly the normalised summary and next actions; a failure of the adapter call passes through |
| Analyzer.BlankTranscriptRejected | app/services/analyzer.py:17-18 | for every adapter, a whitespace-only transcript fails with ValueError and invokes no adapter method |
| Analyzer.NoCandidateFails | app/services/analyzer.py:74-89 | an adapter with none of the four methods makes `analyze` of a non-blank transcript raise RuntimeError (could not call) |
| Analyzer.AnalysisCarriesAdapterFields | app/services/analyzer.py:21-23 | when the chosen method returns a DTO or a dict with summary S and actions A, the analysis is exactly (id, S, A) |
| Analyzer.GatherPerItem | app/services/analyzer.py:27-28 | gathering succeeds exactly when every item does, with result[i] the value of item i; otherwise it fails with the error of the first failing item |
| Analyzer.AnalysesOfPerItem | app/services/analyzer.py:26-28 | `analyze_many` gives one analysis per transcript, result[i] from transcripts[i] with ids[i], and fails exactly when some item fails |
| Analyzer.AnalyzeMany | app/services/analyzer.py:26-28 | the loop's outcome is the gathered per-item outcome, and `called[i]` is the adapter method invoked for transcripts[i] |
| Repository.Saved | app/repositories/memory.py:14-16 | after saving, the analysis is stored under its id, the keys gain only that id, and every other entry is unchanged |
| Repository.SavedKeyedById | app/repositories/memory.py:16 | saving keeps every entry stored under its own id |
| Repository.SaveIsIdempotent | app/repositories/memory.py:16 | saving the same analysis twice leaves the store as saving it once |
| Repository.SaveAllKeys | app/api/routes.py:66-67 | saving analyses in order adds exactly their ids to the keys |
| Repository.SaveAllKeepsOthers | app/api/routes.py:66-67 | saving analyses in order leaves every entry under another id unchanged |
| Repository.SaveAllLastWins | app/api/routes.py:66-67 | under each id the store holds the last analysis saved with that id (upsert) |
| Repository.SaveAllDistinct | app/api/routes.py:66-67 | with distinct ids, every saved analysis is retrievable under its id |
| Repository.InMemoryTranscriptRepository.constructor | app/repositories/memory.py:9-11 | a new repository is empty, so every lookup returns None, and it satisfies the invariant that each entry is stored under its own id |
| Repository.InMemoryTranscriptRepository.Save | app/repositories/memory.py:14-16 | the store becomes the old store with the analysis upserted under its id, and each entry stays stored under its own id |
| Repository.InMemoryTranscriptRepository.Get | app/repositories/memory.py:19-21 | returns the entry under the id, or None exactly when the id is absent; under the invariant the entry returned carries the requested id; changes nothing |
| Routes.ToResponses | app/api/routes.py:70 | one response per analysis, in the same order, copying id, summary and next actions |
| Routes.KeepAnalyzable | app/api/routes.py:61 | keeps only transcripts that pass the guard, keeps every such transcript, never grows the list, and keeps a list that wholly passes unchanged |
| Routes.KeepAnalyzableEmpty | app/api/routes.py:61-63 | nothing survives the filter exactly when no transcript passes the guard |
| Routes.KeepAnalyzableAppend | app/api/routes.py:61 | filtering a concatenation concatenates the filtered parts, so the original order is kept |
| Routes.AnalyzeTranscript | app/api/routes.py:17-24 | GET and POST `/analyze` (lines 17-24 and 35-41) behave the same. A ValueError gives 400 with its message and saves nothing. Any other exception escapes and saves nothing. On success the analysis is saved, then returned with its id, summary and next actions |
| Routes.GetAnalysisById | app/api/routes.py:49-52 | an id absent from the repository gives 404 "Analysis not found"; otherwise the stored id, summary and next actions, and the id answered is always the one requested |
| Routes.AnalyzeBatch | app/api/routes.py:61-70 | with no transcript passing the filter: 400, no adapter call, nothing saved. Otherwise each kept transcript calls the first candidate. A service failure escapes with nothing saved. On success every analysis is saved in order and returned in order |
| Routes.BatchResultsRetrievable | app/api/routes.py:65-67 | after a successful batch with distinct ids, analysis i has ids[i] and can be looked up under it |

## Left out

- Awaiting: the model does not await a coroutine that an adapter method returns. It also leaves out the concurrency of `asyncio.gather`. The adapter's outcome is taken as already resolved.
- Adapter determinism: an adapter call is a function of the prompts, so equal transcripts in one batch get equal outcomes. The real adapter does not promise this; a batch where the same transcript succeeds once and fails once is not represented.
- Batch scheduling: the batch processes every item, since `gather` does not cancel sibling tasks. When several items fail, the model reports the first failing item in input order. In the source, whichever failing task raises first wins.
- Prompts: `app/prompts.py` is not part of this model. The system prompt and user template are the fallback texts in `app/services/analyzer.py`. The `AttributeError` fallback itself is not modelled.
- `str.format`: modelled only as the substitution of the template's single `{transcript}` placeholder.
- Value types: the values under `summary` and `next_actions` are assumed to have the declared types, a string and a list of strings. A wrongly typed value, such as a string iterated by `list(...)`, is not modelled.
- The locally defined pydantic DTO class is not modelled.
- Non-callable attributes: an attribute with a candidate name that is not callable, which would raise `TypeError`, is not modelled.
- The framework's handling of an escaping exception: how it is answered is not modelled. The model stops at `Uncaught`.
- Request validation: pydantic request validation (422 responses) is not modelled.
- Identifiers and timestamps: `uuid4` and `created_at` are left out. Identifiers are parameters, and their uniqueness is an assumption of `Routes.BatchResultsRetrievable`.
- The repository's `RLock`: its only purpose is thread safety.
- Framework wiring: `app/dependencies.py`, `app/main.py` and the health endpoint are configuration and are not modelled.
