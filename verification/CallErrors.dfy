/** What a call to the pool returns to its goroutine, and what that says of the render. */
module CallErrors {
  import opened PoolProtocol
  import Pool = ForkPool
  import Demux = ReplyDemux
  import Protocol = ForkProtocol

  /** OutOfMemory is the error that the orchestrator answers by halving a chunk, where it does. */
  datatype CallError = OutOfMemory | LicenseInvalid | Unprocessable(detail: string) | RenderError(code: int, detail: string) | NotWritten

  datatype Returned = Path(output: string) | Error(error: CallError)

  const EXIT_LICENSE_INVALID := 2
  const EXIT_INPUT_UNPROCESSABLE := 3

  function OrUnknown(detail: string): string {
    if detail == "" then "unknown error" else detail
  }

  function RaiseError(code: int, detail: string): CallError {
    if code == EXIT_OOM then OutOfMemory
    else if code == EXIT_LICENSE_INVALID then LicenseInvalid
    else if code == EXIT_INPUT_UNPROCESSABLE then Unprocessable(OrUnknown(detail))
    else RenderError(code, OrUnknown(detail))
  }

  /** The end of RenderChunk. A successful call returns its own path, whatever path the reply names. */
  function ReturnOf(c: Demux.Call, result: Demux.Result): Returned {
    match result
    case Got(FromWorker(Done(_, _))) => Path(c.req.output)
    case Got(FromWorker(Failed(_, code, detail))) => Error(RaiseError(code, detail))
    case Got(EndOfOutput(_)) => Error(RenderError(EXIT_RENDER_FAILURE, "worker stdout EOF"))
    case TimedOut => Error(RenderError(-1, "fork pool timeout"))
    case WriteFailed => Error(NotWritten)
  }

  /** How a worker's render ended, as the caller should hear of it. */
  ghost predicate Tells(r: Returned, req: Request, outcome: Outcome) {
    && (r.Path? <==> !BadArgs(req) && outcome.Rendered?)
    && (r.Path? ==> r.output == req.output)
    && (r == Error(OutOfMemory) <==> !BadArgs(req) && (outcome.BadAlloc? || (outcome.WorkerError? && outcome.code == 137)))
    && (r == Error(LicenseInvalid) <==> !BadArgs(req) && outcome.WorkerError? && outcome.code == 2)
    && ((r.Error? && r.error.Unprocessable?) <==> !BadArgs(req) && outcome.WorkerError? && outcome.code == 3)
    && (!BadArgs(req) && outcome.WorkerError? && outcome.code !in {2, 3, 137} ==> r.Error? && r.error.RenderError? && r.error.code == outcome.code)
    && (BadArgs(req) || outcome.OtherError? ==> r.Error? && r.error.RenderError? && r.error.code == 1)
  }

  /**
   In every run, a call that was answered returns what the one execution of its own command comes
   to: its path exactly when that rendered, out of memory exactly when that ran out of memory.
   */
  lemma AnsweredCallTellsOutcome(children: nat, steps: seq<Protocol.Action>, s: Protocol.System, id: nat, reply: Reply)
    returns (outcome: Outcome)
    requires Protocol.Run(Protocol.Initial(children), steps, s)
    requires id in s.demux.calls && Protocol.HasResult(s.demux.calls[id], Demux.Got(Demux.FromWorker(reply)))
    ensures var c := s.demux.calls[id];
      && Pool.Execution(Protocol.JobOf(c), outcome) in s.pool.executed
      && (forall e <- s.pool.executed :: e.job.seqNo == c.seqNo ==> e == Pool.Execution(Protocol.JobOf(c), outcome))
      && Tells(ReturnOf(c, Demux.Got(Demux.FromWorker(reply))), c.req, outcome)
  {
    hide Protocol.Run;
    Protocol.ReplyMatchesCall(children, steps, s, id, reply);
    var job := Protocol.JobOf(s.demux.calls[id]);
    outcome :| Pool.Execution(job, outcome) in s.pool.executed && reply == Answer(job, outcome);
    forall e | e in s.pool.executed && e.job.seqNo == job.seqNo ensures e == Pool.Execution(job, outcome) {
      Protocol.ExecutedAtMostOnce(children, steps, s, e, Pool.Execution(job, outcome));
    }
  }
}
