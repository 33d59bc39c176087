/** The domain record stored and returned by the service (app/domain/models.py). */
module Domain {

  /** A completed analysis. `created_at` is informational only and is not modelled. */
  datatype TranscriptAnalysis = TranscriptAnalysis(id: string, summary: string, nextActions: seq<string>)

  /**
   * `TranscriptAnalysis.new`: a fresh record carrying the given summary and actions.
   * The identifier, which the source draws from `uuid4`, is supplied by the caller.
   */
  function NewAnalysis(id: string, summary: string, nextActions: seq<string>): (a: TranscriptAnalysis)
    ensures a.id == id && a.summary == summary && a.nextActions == nextActions
  {
    TranscriptAnalysis(id, summary, nextActions)
  }
}
