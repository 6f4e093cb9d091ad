/**
 * The single active-job slot and the two HTTP handlers built on it
 * (getQueryOutputWtDryRun, `/run_query/` and `/cancel_job/` in server/server.js).
 *
 * The engine is abstracted as the replies it gives: the dry-run reply, the
 * reply to the job creation, the reply to the wait for results and the reply
 * to a cancellation. A ghost log records every call made to the engine, in
 * order, so that the ordering the source guarantees can be stated.
 */
module Jobs {
  import opened Wrappers
  import opened DryRun
  import opened Reshape

  /** What `createQueryJob` does for a real job: resolve with the job's id, or reject. */
  datatype SubmitReply = JobCreated(jobId: string) | SubmitFailed(message: string)

  /** What `getQueryResults` does: resolve with the rows, or reject (for instance because the job was cancelled). */
  datatype FetchReply = RowsFetched(rows: seq<Row>) | FetchFailed(message: string)

  /** What `job.cancel()` does: resolve, or reject. */
  datatype CancelReply = CancelAcknowledged | CancelFailed(message: string)

  /** One call to the engine, as the log records it. */
  datatype GatewayCall =
    | DryRunCall(query: string, accepted: bool)
    | CreateJobCall(query: string, created: Option<string>)
    | GetResultsCall(jobId: string)
    | CancelCall(jobId: string)

  const JobCancelledMessage := "Job cancelled"
  const NoActiveJobMessage := "No active job to cancel"

  /** The ids of the jobs the engine created, according to the log. */
  ghost function CreatedJobs(calls: seq<GatewayCall>): set<string> {
    if calls == [] then {}
    else
      var n := |calls| - 1;
      CreatedJobs(calls[..n]) + match calls[n] {
        case CreateJobCall(_, Some(id)) => {id}
        case _ => {}
      }
  }

  /**
   * What may be called after `before`: a real job only right after an
   * accepted dry run of the same text; results and cancellation only for a
   * job the engine created.
   */
  ghost predicate CallAllowed(before: seq<GatewayCall>, call: GatewayCall) {
    match call
    case DryRunCall(_, _) => true
    case CreateJobCall(query, _) => |before| > 0 && before[|before| - 1] == DryRunCall(query, true)
    case GetResultsCall(id) => id in CreatedJobs(before)
    case CancelCall(id) => id in CreatedJobs(before)
  }

  /** Every call in the log was allowed when it was made. */
  ghost predicate Ordered(calls: seq<GatewayCall>) {
    calls == [] || (var n := |calls| - 1; Ordered(calls[..n]) && CallAllowed(calls[..n], calls[n]))
  }

  /** Appending an allowed call keeps the log ordered and adds the job it creates, if any. */
  lemma OrderedExtend(calls: seq<GatewayCall>, call: GatewayCall)
    requires Ordered(calls) && CallAllowed(calls, call)
    ensures Ordered(calls + [call])
    ensures CreatedJobs(calls + [call]) ==
      CreatedJobs(calls) + (if call.CreateJobCall? && call.created.Some? then {call.created.value} else {})
  {
    assert (calls + [call])[..|calls|] == calls;
  }

  /** In an ordered log, every real job follows, immediately, an accepted dry run of the identical text. */
  lemma {:induction false} SubmissionFollowsDryRun(calls: seq<GatewayCall>, p: nat)
    requires Ordered(calls) && p < |calls| && calls[p].CreateJobCall?
    ensures p > 0 && calls[p - 1] == DryRunCall(calls[p].query, true)
  {
    var n := |calls| - 1;
    if p < n {
      SubmissionFollowsDryRun(calls[..n], p);
    } else {
      assert calls[..n][p - 1] == calls[p - 1];
    }
  }

  /** `if (activeJobId)`: JavaScript truthiness, so null and the empty string both read as "no job". */
  function HasActiveJob(slot: Option<string>): (truthy: bool)
    ensures slot == None ==> !truthy
    ensures slot == Some("") ==> !truthy
    ensures slot.Some? && |slot.value| > 0 ==> truthy
  {
    match slot
    case None => false
    case Some(id) => id != ""
  }

  /** Where getQueryOutputWtDryRun stands after its job-creation step. */
  datatype SubmitOutcome =
    | Rejected(dryRun: DryRunResponse)
    | Running(jobId: string, dryRun: DryRunResponse)
    | SubmitThrew(message: string)

  /** What getQueryOutputWtDryRun returns, or the error that escapes it. */
  datatype QueryOutput =
    | DryRunRejected(dryRun: DryRunResponse)
    | Completed(rows: seq<Row>, dryRun: DryRunResponse)
    | Threw(message: string)

  /** The body `/run_query/` sends. On a failed dry run the rows are empty. */
  datatype ExecutionResponse = ExecutionResponse(rows: ColumnarResult, dryRunResponse: DryRunResponse)

  /** Where `/cancel_job/` stands at its wait on the engine. */
  datatype CancelStep = NoJob | Cancelling(jobId: string)

  /** A handler either sends a body or throws before sending anything. */
  datatype Reply<T> = Sent(body: T) | NoReply(error: string)

  /** The engine calls one run makes, given the engine's replies. */
  ghost function RunCalls(query: string, estimate: EstimateReply, submit: SubmitReply): seq<GatewayCall> {
    if estimate.EstimateFailed? then [DryRunCall(query, false)]
    else match submit
      case SubmitFailed(_) => [DryRunCall(query, true), CreateJobCall(query, None)]
      case JobCreated(id) => [DryRunCall(query, true), CreateJobCall(query, Some(id)), GetResultsCall(id)]
  }

  /** The slot after one run that nothing interleaves with. */
  function SlotAfterRun(slot: Option<string>, estimate: EstimateReply, submit: SubmitReply, fetch: FetchReply): Option<string> {
    if estimate.EstimateFailed? then slot
    else match submit
      case SubmitFailed(_) => slot
      case JobCreated(id) => if fetch.RowsFetched? then None else Some(id)
  }

  /** A run keeps the log ordered: its real job, if any, comes right after its own accepted dry run. */
  lemma RunKeepsOrder(calls: seq<GatewayCall>, query: string, estimate: EstimateReply, submit: SubmitReply)
    requires Ordered(calls)
    ensures Ordered(calls + RunCalls(query, estimate, submit))
    ensures CreatedJobs(calls) <= CreatedJobs(calls + RunCalls(query, estimate, submit))
  {
    var ok := estimate.Estimated?;
    var c1 := calls + [DryRunCall(query, ok)];
    OrderedExtend(calls, DryRunCall(query, ok));
    if ok {
      var created := if submit.JobCreated? then Some(submit.jobId) else None;
      var c2 := c1 + [CreateJobCall(query, created)];
      OrderedExtend(c1, CreateJobCall(query, created));
      if submit.JobCreated? {
        OrderedExtend(c2, GetResultsCall(submit.jobId));
        assert c2 + [GetResultsCall(submit.jobId)] == calls + RunCalls(query, estimate, submit);
      } else {
        assert c2 == calls + RunCalls(query, estimate, submit);
      }
    } else {
      assert c1 == calls + RunCalls(query, estimate, submit);
    }
  }

  /** A rejected dry run creates no job and leaves the slot as it was. */
  lemma RejectedRunCreatesNothing(slot: Option<string>, query: string, estimate: EstimateReply, submit: SubmitReply, fetch: FetchReply)
    requires estimate.EstimateFailed?
    ensures forall c :: c in RunCalls(query, estimate, submit) ==> !c.CreateJobCall?
    ensures SlotAfterRun(slot, estimate, submit, fetch) == slot
  {
  }

  class QueryService {
    /** `activeJobId`: the id of the job the server last started and has not seen finish or cancelled. */
    var activeJobId: Option<string>
    /** The calls made to the engine so far. */
    ghost var calls: seq<GatewayCall>

    ghost predicate Valid()
      reads this
    {
      Ordered(calls) && (activeJobId.Some? ==> activeJobId.value in CreatedJobs(calls))
    }

    /** Server start: `activeJobId = null`. */
    constructor ()
      ensures Valid() && activeJobId == None && calls == []
    {
      activeJobId := None;
      calls := [];
    }

    /**
     * getQueryOutputWtDryRun up to the job's start: the dry run; on its
     * failure, return at once; otherwise create the job and record its id.
     */
    method Submit(query: string, estimate: EstimateReply, submit: SubmitReply, formatGigabytes: string -> string)
      returns (s: SubmitOutcome)
      requires Valid()
      modifies this
      ensures Valid()
      ensures s.Running? ==> s.jobId in CreatedJobs(calls)
      ensures CreatedJobs(old(calls)) <= CreatedJobs(calls)
      ensures var dryRun := QueryDryRun(estimate, formatGigabytes);
        if dryRun.hasError then
          s == Rejected(dryRun) && activeJobId == old(activeJobId) && calls == old(calls) + [DryRunCall(query, false)]
        else match submit
          case JobCreated(id) =>
            && s == Running(id, dryRun) && activeJobId == Some(id)
            && calls == old(calls) + [DryRunCall(query, true), CreateJobCall(query, Some(id))]
          case SubmitFailed(message) =>
            && s == SubmitThrew(message) && activeJobId == old(activeJobId)
            && calls == old(calls) + [DryRunCall(query, true), CreateJobCall(query, None)]
    {
      var dryRun := QueryDryRun(estimate, formatGigabytes);
      OrderedExtend(calls, DryRunCall(query, !dryRun.hasError));
      calls := calls + [DryRunCall(query, !dryRun.hasError)];
      if dryRun.hasError {
        return Rejected(dryRun);
      }
      match submit
      case SubmitFailed(message) =>
        OrderedExtend(calls, CreateJobCall(query, None));
        calls := calls + [CreateJobCall(query, None)];
        s := SubmitThrew(message);
      case JobCreated(id) =>
        OrderedExtend(calls, CreateJobCall(query, Some(id)));
        calls := calls + [CreateJobCall(query, Some(id))];
        activeJobId := Some(id);
        s := Running(id, dryRun);
    }

    /**
     * getQueryOutputWtDryRun from the wait for results on: when the rows
     * arrive the slot is cleared, whatever it holds by then; when the wait
     * rejects, the error escapes and the slot is left as it is.
     */
    method Collect(jobId: string, dryRun: DryRunResponse, fetch: FetchReply) returns (o: QueryOutput)
      requires Valid() && jobId in CreatedJobs(calls)
      modifies this
      ensures Valid()
      ensures calls == old(calls) + [GetResultsCall(jobId)]
      ensures CreatedJobs(old(calls)) <= CreatedJobs(calls)
      ensures fetch.RowsFetched? ==> o == Completed(fetch.rows, dryRun) && activeJobId == None
      ensures fetch.FetchFailed? ==> o == Threw(fetch.message) && activeJobId == old(activeJobId)
    {
      OrderedExtend(calls, GetResultsCall(jobId));
      calls := calls + [GetResultsCall(jobId)];
      match fetch
      case FetchFailed(message) =>
        o := Threw(message);
      case RowsFetched(rows) =>
        activeJobId := None;
        o := Completed(rows, dryRun);
    }

    /** getQueryOutputWtDryRun with nothing interleaved between its steps. */
    method Execute(query: string, estimate: EstimateReply, submit: SubmitReply, fetch: FetchReply,
                   formatGigabytes: string -> string)
      returns (o: QueryOutput)
      requires Valid()
      modifies this
      ensures Valid()
      ensures calls == old(calls) + RunCalls(query, estimate, submit)
      ensures activeJobId == SlotAfterRun(old(activeJobId), estimate, submit, fetch)
      ensures var dryRun := QueryDryRun(estimate, formatGigabytes);
        o == if dryRun.hasError then DryRunRejected(dryRun)
             else match submit
               case SubmitFailed(message) => Threw(message)
               case JobCreated(_) =>
                 match fetch
                 case RowsFetched(rows) => Completed(rows, dryRun)
                 case FetchFailed(message) => Threw(message)
    {
      var s := Submit(query, estimate, submit, formatGigabytes);
      match s
      case Rejected(dryRun) =>
        o := DryRunRejected(dryRun);
      case SubmitThrew(message) =>
        o := Threw(message);
      case Running(id, dryRun) =>
        o := Collect(id, dryRun, fetch);
    }

    /**
     * `/run_query/`: a failed dry run is answered with no rows; otherwise the
     * rows are reshaped into columns, and a reshaping that throws, like an
     * engine error that escapes the run, leaves the request unanswered.
     */
    method RunQuery(query: string, estimate: EstimateReply, submit: SubmitReply, fetch: FetchReply,
                    formatGigabytes: string -> string)
      returns (reply: Reply<ExecutionResponse>)
      requires Valid()
      modifies this
      ensures Valid()
      ensures calls == old(calls) + RunCalls(query, estimate, submit)
      ensures activeJobId == SlotAfterRun(old(activeJobId), estimate, submit, fetch)
      ensures var dryRun := QueryDryRun(estimate, formatGigabytes);
        dryRun.hasError ==> reply == Sent(ExecutionResponse(ColumnarResult([], map[]), dryRun))
      ensures reply.Sent? ==> reply.body.dryRunResponse == QueryDryRun(estimate, formatGigabytes)
      ensures reply.Sent? && estimate.Estimated? ==>
        && submit.JobCreated? && fetch.RowsFetched?
        && FirstForeignKey(fetch.rows, ColumnKeys(fetch.rows)) == None
        && reply.body.rows.keys == ColumnKeys(fetch.rows)
        && (forall k :: k in reply.body.rows.columns <==> k in ColumnKeys(fetch.rows))
        && (forall k :: k in reply.body.rows.columns ==> reply.body.rows.columns[k] == Column(fetch.rows, k))
      ensures (&& estimate.Estimated? && submit.JobCreated? && fetch.RowsFetched?
               && FirstForeignKey(fetch.rows, ColumnKeys(fetch.rows)).Some?) ==>
        reply == NoReply("TypeError: cannot push onto column " + FirstForeignKey(fetch.rows, ColumnKeys(fetch.rows)).value)
      ensures (&& estimate.Estimated? && submit.JobCreated? && fetch.RowsFetched?
               && FirstForeignKey(fetch.rows, ColumnKeys(fetch.rows)).None?) ==> reply.Sent?
    {
      var o := Execute(query, estimate, submit, fetch, formatGigabytes);
      match o
      case DryRunRejected(dryRun) =>
        reply := Sent(ExecutionResponse(ColumnarResult([], map[]), dryRun));
      case Threw(message) =>
        reply := NoReply(message);
      case Completed(rows, dryRun) =>
        var data := CreateData(rows);
        match data
        case Failure(UndefinedColumn(key)) =>
          reply := NoReply("TypeError: cannot push onto column " + key);
        case Success(columns) =>
          reply := Sent(ExecutionResponse(columns, dryRun));
    }

    /**
     * `/cancel_job/` up to its wait on the engine: with a job in the slot,
     * ask the engine to cancel exactly that job; otherwise there is nothing
     * to wait for. The slot is only read.
     */
    method StartCancel() returns (step: CancelStep)
      requires Valid()
      modifies this
      ensures Valid()
      ensures activeJobId == old(activeJobId)
      ensures !HasActiveJob(old(activeJobId)) ==> step == NoJob && calls == old(calls)
      ensures HasActiveJob(old(activeJobId)) ==>
        step == Cancelling(old(activeJobId).value) && calls == old(calls) + [CancelCall(old(activeJobId).value)]
    {
      if HasActiveJob(activeJobId) {
        var id := activeJobId.value;
        OrderedExtend(calls, CancelCall(id));
        calls := calls + [CancelCall(id)];
        step := Cancelling(id);
      } else {
        step := NoJob;
      }
    }

    /**
     * `/cancel_job/` from its wait on the engine on: an acknowledged
     * cancellation clears the slot, whatever it holds by then; a rejected
     * one escapes before the slot is cleared. With no job, the answer is
     * "No active job to cancel".
     */
    method FinishCancel(step: CancelStep, cancel: CancelReply) returns (reply: Reply<string>)
      requires Valid()
      modifies this
      ensures Valid()
      ensures calls == old(calls)
      ensures step == NoJob ==> reply == Sent(NoActiveJobMessage) && activeJobId == old(activeJobId)
      ensures step.Cancelling? && cancel.CancelAcknowledged? ==> reply == Sent(JobCancelledMessage) && activeJobId == None
      ensures step.Cancelling? && cancel.CancelFailed? ==> reply == NoReply(cancel.message) && activeJobId == old(activeJobId)
    {
      match step
      case NoJob =>
        reply := Sent(NoActiveJobMessage);
      case Cancelling(_) =>
        match cancel
        case CancelFailed(message) =>
          reply := NoReply(message);
        case CancelAcknowledged =>
          activeJobId := None;
          reply := Sent(JobCancelledMessage);
    }

    /**
     * `/cancel_job/` with nothing interleaved at its wait: with a job in the
     * slot, cancel exactly that job, then clear the slot; otherwise do nothing.
     */
    method Cancel(cancel: CancelReply) returns (reply: Reply<string>)
      requires Valid()
      modifies this
      ensures Valid()
      ensures !HasActiveJob(old(activeJobId)) ==>
        reply == Sent(NoActiveJobMessage) && activeJobId == old(activeJobId) && calls == old(calls)
      ensures HasActiveJob(old(activeJobId)) ==>
        && calls == old(calls) + [CancelCall(old(activeJobId).value)]
        && (cancel.CancelAcknowledged? ==> reply == Sent(JobCancelledMessage) && activeJobId == None)
        && (cancel.CancelFailed? ==> reply == NoReply(cancel.message) && activeJobId == old(activeJobId))
    {
      var step := StartCancel();
      reply := FinishCancel(step, cancel);
    }
  }

  /** A run that completed cleared the slot, so a cancel after it does nothing. */
  method CancelAfterCompletedRun(svc: QueryService, query: string, bytes: string, id: string, rows: seq<Row>,
                                 formatGigabytes: string -> string, cancel: CancelReply)
    returns (reply: Reply<string>)
    requires svc.Valid()
    modifies svc
    ensures svc.Valid()
    ensures reply == Sent(NoActiveJobMessage) && svc.activeJobId == None
    ensures svc.calls == old(svc.calls) + [DryRunCall(query, true), CreateJobCall(query, Some(id)), GetResultsCall(id)]
  {
    var _ := svc.Execute(query, Estimated(bytes), JobCreated(id), RowsFetched(rows), formatGigabytes);
    reply := svc.Cancel(cancel);
  }

  /** Once a cancel has been acknowledged, a second cancel is a no-op. */
  method CancelTwice(svc: QueryService, first: CancelReply, second: CancelReply)
    returns (r1: Reply<string>, r2: Reply<string>)
    requires svc.Valid() && first.CancelAcknowledged?
    modifies svc
    ensures svc.Valid()
    ensures r2 == Sent(NoActiveJobMessage)
    ensures svc.activeJobId == if HasActiveJob(old(svc.activeJobId)) then None else old(svc.activeJobId)
    ensures HasActiveJob(old(svc.activeJobId)) ==>
      r1 == Sent(JobCancelledMessage) && svc.calls == old(svc.calls) + [CancelCall(old(svc.activeJobId).value)]
    ensures !HasActiveJob(old(svc.activeJobId)) ==> r1 == Sent(NoActiveJobMessage) && svc.calls == old(svc.calls)
  {
    r1 := svc.Cancel(first);
    r2 := svc.Cancel(second);
  }

  /**
   * A cancel that arrives while a run waits for its results cancels exactly
   * that run's job; the engine then fails the wait, whose error escapes.
   */
  method CancelDuringRun(svc: QueryService, query: string, bytes: string, id: string, reason: string,
                         formatGigabytes: string -> string)
    returns (cancelled: Reply<string>, o: QueryOutput)
    requires svc.Valid() && id != ""
    modifies svc
    ensures svc.Valid()
    ensures cancelled == Sent(JobCancelledMessage) && o == Threw(reason) && svc.activeJobId == None
    ensures svc.calls == old(svc.calls) +
      [DryRunCall(query, true), CreateJobCall(query, Some(id)), CancelCall(id), GetResultsCall(id)]
  {
    var s := svc.Submit(query, Estimated(bytes), JobCreated(id), formatGigabytes);
    cancelled := svc.Cancel(CancelAcknowledged);
    o := svc.Collect(s.jobId, s.dryRun, FetchFailed(reason));
  }

  /**
   * Two runs that overlap share the one slot: the second run's id replaces
   * the first's, and when the first run's results arrive the slot is
   * cleared, so the second job, still running, can no longer be cancelled.
   */
  method OverlappingRunsLoseSecondJob(svc: QueryService, q1: string, q2: string, bytes: string,
                                      id1: string, id2: string, rows: seq<Row>,
                                      formatGigabytes: string -> string)
    returns (reply: Reply<string>)
    requires svc.Valid()
    modifies svc
    ensures svc.Valid()
    ensures reply == Sent(NoActiveJobMessage) && svc.activeJobId == None
    ensures svc.calls == old(svc.calls) +
      [DryRunCall(q1, true), CreateJobCall(q1, Some(id1)), DryRunCall(q2, true), CreateJobCall(q2, Some(id2)),
       GetResultsCall(id1)]
  {
    var first := svc.Submit(q1, Estimated(bytes), JobCreated(id1), formatGigabytes);
    ghost var afterFirst := svc.calls;
    var second := svc.Submit(q2, Estimated(bytes), JobCreated(id2), formatGigabytes);
    assert svc.activeJobId == Some(id2);
    assert first.jobId in CreatedJobs(afterFirst);
    var _ := svc.Collect(first.jobId, first.dryRun, RowsFetched(rows));
    reply := svc.Cancel(CancelAcknowledged);
  }

  /**
   * A run that creates its job while a cancel waits on the engine: the
   * cancel then clears the slot holding the new id, answers "Job cancelled"
   * for the old job, and the new job, never cancelled, can no longer be.
   */
  method CancelErasesNewJob(svc: QueryService, query: string, bytes: string, id: string,
                            formatGigabytes: string -> string)
    returns (cancelled: Reply<string>, again: Reply<string>)
    requires svc.Valid() && HasActiveJob(svc.activeJobId)
    modifies svc
    ensures svc.Valid()
    ensures cancelled == Sent(JobCancelledMessage) && again == Sent(NoActiveJobMessage) && svc.activeJobId == None
    ensures id in CreatedJobs(svc.calls)
    ensures svc.calls == old(svc.calls) +
      [CancelCall(old(svc.activeJobId).value), DryRunCall(query, true), CreateJobCall(query, Some(id))]
  {
    var step := svc.StartCancel();
    var s := svc.Submit(query, Estimated(bytes), JobCreated(id), formatGigabytes);
    cancelled := svc.FinishCancel(step, CancelAcknowledged);
    again := svc.Cancel(CancelAcknowledged);
  }
}
