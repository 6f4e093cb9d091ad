/**
 * Shaping of the dry-run response (queryDryRun in server/server.js).
 *
 * The call to the engine is abstracted as its reply: either the raw
 * `totalBytesProcessed` statistic or the message of the error it threw.
 * The conversion of the statistic to gigabytes with three decimals is
 * floating point and is passed in as `formatGigabytes`.
 */
module DryRun {
  import opened Wrappers
  import opened ErrorLocator

  /** What the engine answers to an estimate-only query job. */
  datatype EstimateReply =
    | Estimated(totalBytesProcessed: string)
    | EstimateFailed(message: string)

  /**
   * The response object: `statistics.totalBytesProcessed` and the `error`
   * part; `location` is present only on the error path.
   */
  datatype DryRunResponse = DryRunResponse(
    totalBytesProcessed: string,
    hasError: bool,
    message: string,
    location: Option<Position>)

  /** The response the source builds from the engine's reply. */
  function QueryDryRun(reply: EstimateReply, formatGigabytes: string -> string): (r: DryRunResponse)
    ensures r.hasError <==> reply.EstimateFailed?
    ensures reply.EstimateFailed? ==>
      && r.message == reply.message
      && r.location == Some(Locate(reply.message))
      && r.totalBytesProcessed == ""
    ensures reply.Estimated? ==>
      && r.message == ""
      && r.location == None
      && r.totalBytesProcessed == formatGigabytes(reply.totalBytesProcessed)
  {
    match reply
    case Estimated(bytes) => DryRunResponse(formatGigabytes(bytes), false, "", None)
    case EstimateFailed(message) => DryRunResponse("", true, message, Some(Locate(message)))
  }

  /**
   * A failed dry run reports, verbatim, the message the engine gave, and the
   * position of its leftmost `[line:column]` marker, or 0, 0 when it has none.
   */
  lemma FailureLocatesMessage(message: string, formatGigabytes: string -> string)
    ensures QueryDryRun(EstimateFailed(message), formatGigabytes).hasError
    ensures QueryDryRun(EstimateFailed(message), formatGigabytes).message == message
    ensures HasMarker(message) ==> exists i, j, k ::
      && LeftmostMatch(message, i, j, k)
      && QueryDryRun(EstimateFailed(message), formatGigabytes).location
         == Some(Position(DecimalValue(message[i + 1..j]), DecimalValue(message[j + 1..k])))
    ensures !HasMarker(message) ==> QueryDryRun(EstimateFailed(message), formatGigabytes).location == Some(Position(0, 0))
  {
    LocateCharacterised(message);
  }
}
