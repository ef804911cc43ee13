/** What travels between the orchestrator, the pool leader and its children. */
module PoolProtocol {

  const EXIT_RENDER_FAILURE := 1
  const EXIT_OOM := 137

  datatype Request = Request(pageStart: int, pageEnd: int, output: string)

  /** A render command, tagged with the caller's sequence number. */
  datatype Job = Job(seqNo: int, req: Request)

  /** A line on the leader's stdin. */
  datatype Line = Render(job: Job) | Quit | Unknown(seqNo: int, cmd: string)

  datatype Reply = Done(seqNo: int, output: string) | Failed(seqNo: int, code: int, detail: string)

  /** How a call to the renderer ends: normally, or with one of the exceptions the caller catches. */
  datatype Outcome = Rendered | WorkerError(code: int, what: string) | BadAlloc | OtherError(what: string)

  predicate BadArgs(req: Request) {
    req.pageStart < 1 || req.pageEnd < req.pageStart || req.output == ""
  }

  /** The reply line for a job whose render ended with the given outcome. */
  function Answer(job: Job, outcome: Outcome): (reply: Reply)
    ensures reply.seqNo == job.seqNo
    ensures reply.Done? <==> !BadArgs(job.req) && outcome.Rendered?
    ensures reply.Done? ==> reply.output == job.req.output
    ensures !BadArgs(job.req) && outcome.BadAlloc? ==> reply.Failed? && reply.code == 137
    ensures !BadArgs(job.req) && outcome.WorkerError? ==> reply.Failed? && reply.code == outcome.code && reply.detail == outcome.what
    ensures BadArgs(job.req) || outcome.OtherError? ==> reply.Failed? && reply.code == 1
  {
    if BadArgs(job.req) then Failed(job.seqNo, EXIT_RENDER_FAILURE, "bad render args")
    else match outcome
      case Rendered => Done(job.seqNo, job.req.output)
      case WorkerError(code, what) => Failed(job.seqNo, code, what)
      case BadAlloc => Failed(job.seqNo, EXIT_OOM, "render: bad_alloc")
      case OtherError(what) => Failed(job.seqNo, EXIT_RENDER_FAILURE, "render: " + what)
  }

  function UnknownReply(seqNo: int, cmd: string): (reply: Reply)
    ensures reply.Failed? && reply.seqNo == seqNo && reply.code == 1
  {
    Failed(seqNo, EXIT_RENDER_FAILURE, "unknown cmd: " + cmd)
  }

  /** The event loop's own variables. */
  datatype Loop = Loop(busy: seq<bool>, pending: seq<Job>, leaderBusy: bool, stdinOpen: bool, quitting: bool) {

    ghost predicate AllIdle() {
      forall i :: 0 <= i < |busy| ==> !busy[i]
    }

    /** The loop condition. */
    ghost predicate GoesOn() {
      stdinOpen || pending != [] || !AllIdle()
    }

    /** The test at the end of the loop body. */
    ghost predicate Breaks() {
      quitting && !leaderBusy && AllIdle()
    }
  }

  /** Who takes a new render command. */
  datatype Target = ToChild(i: nat) | ToLeader | Queued

  /** The first idle child, or the number of children when all are busy. */
  function FirstIdle(busy: seq<bool>): (i: nat)
    ensures i <= |busy|
    ensures forall j :: 0 <= j < i ==> busy[j]
    ensures i < |busy| ==> !busy[i]
  {
    if busy == [] || !busy[0] then 0 else FirstIdle(busy[1..]) + 1
  }

  function Assign(loop: Loop): Target {
    var i := FirstIdle(loop.busy);
    if i < |loop.busy| then ToChild(i)
    else if !loop.leaderBusy then ToLeader
    else Queued
  }
}
