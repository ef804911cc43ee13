/**
 The whole protocol: any number of RenderChunk calls, the reader goroutine, the leader, its
 children and the pipes between them, interleaved step by step.
 */
module ForkProtocol {
  import opened Basics
  import opened PoolProtocol
  import Pool = ForkPool
  import Once = ForkOnce
  import Demux = ReplyDemux

  /** read is a history: the replies that the orchestrator has taken off the leader's stdout. */
  datatype System = System(demux: Demux.Demux, pool: Pool.Pool, read: seq<Reply>)

  /** Go is a step of a caller or of the reader; the last two are the orchestrator's shutdown. */
  datatype Action = Go(go: Demux.Action) | InPool(step: Pool.Action) | SendQuit | CloseStdin

  function Initial(children: nat): System {
    System(Demux.IDLE, Pool.Start(children), [])
  }

  function JobOf(c: Demux.Call): Job {
    Job(c.seqNo, c.req)
  }

  ghost predicate Enabled(s: System, a: Action) {
    match a
    case Go(go) =>
      && Demux.Enabled(s.demux, go)
      && (go.ReadReply? ==> s.pool.stdout != [] && go.reply == s.pool.stdout[0])
      && (go.ReadEnd? ==> s.pool.stdout == [] && !Pool.Running(s.pool))
    case InPool(step) => Pool.Enabled(s.pool, step)
    case SendQuit => true
    case CloseStdin => true
  }

  function Submit(p: Pool.Pool, job: Job): Pool.Pool {
    p.(stdin := p.stdin + [Render(job)], submitted := p.submitted + {job})
  }

  /** The pipe's side of an orchestrator step: a command written, a reply read. */
  function PipeAfter(s: System, go: Demux.Action): Pool.Pool
    requires go.Write? ==> go.id in s.demux.calls
    requires go.ReadReply? ==> s.pool.stdout != []
  {
    if go.Write? then Submit(s.pool, JobOf(s.demux.calls[go.id]))
    else if go.ReadReply? then s.pool.(stdout := s.pool.stdout[1..])
    else s.pool
  }

  ghost function Apply(s: System, a: Action): System
    requires Enabled(s, a)
  {
    match a
    case Go(go) =>
      System(Demux.Apply(s.demux, go), PipeAfter(s, go), if go.ReadReply? then s.read + [go.reply] else s.read)
    case InPool(step) => s.(pool := Pool.Apply(s.pool, step))
    case SendQuit => s.(pool := s.pool.(stdin := s.pool.stdin + [Quit]))
    case CloseStdin => s.(pool := s.pool.(stdinClosed := true))
  }

  /** The run that takes these steps from a is possible and ends in b. */
  ghost predicate Run(a: System, steps: seq<Action>, b: System)
    decreases |steps|
  {
    if steps == [] then a == b
    else Enabled(a, steps[0]) && Run(Apply(a, steps[0]), steps[1..], b)
  }

  // ---------------------------------------------------------------- the invariant

  ghost predicate PoolInv(p: Pool.Pool) {
    && Pool.LoopInv(p)
    && (forall s :: Pool.Conserved(p, s))
    && Pool.LostWithChild(p)
    && Pool.Provenance(p)
    && Once.AtMostOnce(p)
    && (forall s :: Pool.Seen(p, s) <= 1 && (Pool.Seen(p, s) == 1 ==> exists job <- p.submitted :: job.seqNo == s))
    && AllSeen(p)
    && AnsweredOnce(p)
  }

  ghost predicate AnsweredOnce(p: Pool.Pool) {
    forall s :: Pool.Times(p.answered, s) <= 1
  }

  /** Until a quit is read, or a crash, every command that was written is on its way or accepted. */
  ghost predicate AllSeen(p: Pool.Pool) {
    !p.loop.quitting && !p.phase.Crashed? ==> forall job <- p.submitted :: Pool.Seen(p, job.seqNo) == 1
  }

  /** What counts as answered was put on stdout, in this order; the first part has been read. */
  ghost predicate AnsweredOnPipe(s: System) {
    s.pool.answered == Pool.Numbers(s.read + s.pool.stdout)
  }

  /** The job was written by the call with its number, and carries that call's request. */
  ghost predicate WrittenBy(d: Demux.Demux, job: Job, id: nat) {
    id in d.calls && JobOf(d.calls[id]) == job && !d.calls[id].stage.Numbered? && !d.calls[id].stage.Registered?
  }

  ghost predicate SubmittedByCalls(s: System) {
    forall job <- s.pool.submitted :: exists id :: WrittenBy(s.demux, job, id)
  }

  ghost predicate MessageGenuine(p: Pool.Pool, m: Demux.Message) {
    m.FromWorker? ==> Pool.Genuine(p, m.reply)
  }

  ghost predicate CallGenuine(p: Pool.Pool, c: Demux.Call) {
    && (forall m <- c.channel :: MessageGenuine(p, m))
    && ((c.stage.Finishing? || c.stage.Returned?) && c.stage.result.Got? ==> MessageGenuine(p, c.stage.result.message))
  }

  /** Whatever the orchestrator holds of a worker is the answer to an executed job. */
  ghost predicate DemuxGenuine(s: System) {
    && (forall id <- s.demux.calls.Keys :: CallGenuine(s.pool, s.demux.calls[id]))
    && (s.demux.reader.Holding? ==> Pool.Genuine(s.pool, s.demux.reader.reply))
  }

  ghost predicate SystemInv(s: System) {
    PoolInv(s.pool) && Demux.DemuxInv(s.demux) && SubmittedByCalls(s) && DemuxGenuine(s) && AnsweredOnPipe(s)
  }

  lemma InitialInv(children: nat)
    ensures SystemInv(Initial(children))
  {
    var p := Pool.Start(children);
    forall c | c in p.children ensures Pool.ChildGenuine(p, c) {
    }
    forall s ensures Pool.Conserved(p, s) {
      NothingHeld(p.children, s);
    }
    Once.StartsWithNothingToRun(children);
  }

  lemma {:induction false} NothingHeld(children: seq<Pool.Child>, s: int)
    requires forall c <- children :: Pool.Held(c, s) == 0
    ensures Pool.HeldByAll(children, s) == 0
  {
    if children != [] {
      NothingHeld(children[..|children| - 1], s);
    }
  }

  lemma PoolInvStep(p: Pool.Pool, a: Pool.Action)
    requires PoolInv(p) && Pool.Enabled(p, a)
    ensures PoolInv(Pool.Apply(p, a))
    ensures Pool.Apply(p, a).submitted == p.submitted && p.executed <= Pool.Apply(p, a).executed
  {
    hide Pool.Apply, Pool.LoopInv, Pool.Provenance, Pool.LostWithChild, Pool.Seen, Pool.Conserved, Once.AtMostOnce;
    Pool.LoopInvStep(p, a);
    Once.AtMostOnceStep(p, a);
    Pool.LostWithChildStep(p, a);
    Pool.ProvenanceStep(p, a);
    forall s ensures Pool.Conserved(Pool.Apply(p, a), s) {
      Pool.ConservedStep(p, a, s);
    }
    forall s
      ensures Pool.Seen(Pool.Apply(p, a), s) <= Pool.Seen(p, s) && Pool.Apply(p, a).submitted == p.submitted
      ensures !Pool.Drops(p, a) ==> Pool.Seen(Pool.Apply(p, a), s) == Pool.Seen(p, s)
    {
      Pool.SeenStep(p, a, s);
    }
    QuittingStays(p, a);
    StaysAnsweredOnce(p, a);
  }

  lemma StaysAnsweredOnce(p: Pool.Pool, a: Pool.Action)
    requires AnsweredOnce(p) && Pool.Enabled(p, a)
    requires forall s :: Pool.Conserved(Pool.Apply(p, a), s) && Pool.Seen(Pool.Apply(p, a), s) <= 1
    ensures AnsweredOnce(Pool.Apply(p, a))
  {
    var q := Pool.Apply(p, a);
    CrashAnswersNothing(p, a);
    hide Pool.Apply, Pool.Enabled, Pool.LineTimes, Pool.HeldByAll, Pool.InLeader;
    forall s ensures Pool.Times(q.answered, s) <= 1 {
      assert Pool.Conserved(q, s) && Pool.Seen(q, s) <= 1 && Pool.Times(p.answered, s) <= 1;
    }
  }

  lemma CrashAnswersNothing(p: Pool.Pool, a: Pool.Action)
    requires Pool.Enabled(p, a)
    ensures Pool.Apply(p, a).phase.Crashed? ==> Pool.Apply(p, a).answered == p.answered
  {
    hide FirstIdle;
  }

  lemma QuittingStays(p: Pool.Pool, a: Pool.Action)
    requires Pool.Enabled(p, a)
    ensures var q := Pool.Apply(p, a);
      && (Pool.Drops(p, a) ==> q.loop.quitting || q.phase.Crashed?)
      && (p.loop.quitting ==> q.loop.quitting) && !p.phase.Crashed?
  {
    hide FirstIdle;
  }

  /** More submitted or executed jobs leave everything the orchestrator holds genuine. */
  lemma DemuxGenuineStays(s: System, q: Pool.Pool)
    requires DemuxGenuine(s)
    requires s.pool.submitted <= q.submitted && s.pool.executed <= q.executed
    ensures DemuxGenuine(s.(pool := q))
  {
  }

  /** Lines appended to stdin other than render commands, and lines read off stdout, change nothing. */
  lemma PipeKeepsPoolInv(p: Pool.Pool, q: Pool.Pool)
    requires PoolInv(p)
    requires q == p.(stdin := q.stdin, stdinClosed := q.stdinClosed, stdout := q.stdout) && (p.stdinClosed ==> q.stdinClosed)
    requires q.stdin == p.stdin || q.stdin == p.stdin + [Quit]
    requires forall r <- q.stdout :: r in p.stdout
    ensures PoolInv(q)
  {
    hide Once.AtMostOnce;
    Once.PipeKeepsOnce(p, q);
    forall s ensures Pool.Seen(q, s) == Pool.Seen(p, s) {
      Pool.LineTimesSplit(p.stdin, [Quit], s);
    }
    forall s ensures Pool.Conserved(q, s) {
      assert Pool.Conserved(p, s);
    }
    LoopInvIgnoresPipes(p, q);
    Pool.GenuineStays(p, q);
    forall c | c in q.children ensures Pool.ChildGenuine(q, c) {
      assert Pool.ChildGenuine(p, c);
    }
  }

  lemma LoopInvIgnoresPipes(p: Pool.Pool, q: Pool.Pool)
    requires Pool.LoopInv(p)
    requires q.loop == p.loop && q.phase == p.phase && q.children == p.children && (p.stdinClosed ==> q.stdinClosed)
    ensures Pool.LoopInv(q)
  {
    if !p.phase.Crashed? {
      forall i | 0 <= i < |q.children| ensures Pool.ChildInv(q, i) {
        assert Pool.ChildInv(p, i);
      }
    }
  }

  /** A command with a number not seen before may be written. */
  lemma SubmitKeepsPoolInv(p: Pool.Pool, job: Job)
    requires PoolInv(p)
    requires forall j <- p.submitted :: j.seqNo != job.seqNo
    ensures PoolInv(Submit(p, job))
  {
    hide Once.AtMostOnce;
    var q := Submit(p, job);
    Once.SubmitKeepsOnce(p, q, job);
    LoopInvIgnoresPipes(p, q);
    Pool.GenuineStays(p, q);
    forall c | c in q.children ensures Pool.ChildGenuine(q, c) {
      assert Pool.ChildGenuine(p, c);
    }
    forall s ensures Pool.Conserved(q, s) {
      assert Pool.Conserved(p, s);
    }
    forall s
      ensures Pool.Seen(q, s) <= 1 && (Pool.Seen(q, s) == 1 ==> exists j <- q.submitted :: j.seqNo == s)
      ensures Pool.Seen(q, s) == Pool.Seen(p, s) + (if s == job.seqNo then 1 else 0)
    {
      Pool.LineTimesSplit(p.stdin, [Render(job)], s);
      assert Pool.Seen(p, s) <= 1;
      if s == job.seqNo {
        assert job in q.submitted;
      } else if Pool.Seen(p, s) == 1 {
        var j :| j in p.submitted && j.seqNo == s;
        assert j in q.submitted;
      }
    }
  }

  lemma GoKeepsPoolInv(s: System, go: Demux.Action)
    requires SystemInv(s) && Enabled(s, Go(go))
    ensures PoolInv(PipeAfter(s, go))
  {
    if go.Write? {
      var job := JobOf(s.demux.calls[go.id]);
      forall j | j in s.pool.submitted ensures j.seqNo != job.seqNo {
        var id :| WrittenBy(s.demux, j, id);
      }
      SubmitKeepsPoolInv(s.pool, job);
    } else if go.ReadReply? {
      PipeKeepsPoolInv(s.pool, PipeAfter(s, go));
    }
  }

  lemma GoKeepsSubmitted(s: System, go: Demux.Action)
    requires SystemInv(s) && Enabled(s, Go(go))
    ensures SubmittedByCalls(Apply(s, Go(go)))
  {
    hide PoolInv, DemuxGenuine, Demux.DemuxInv;
    var t := Apply(s, Go(go));
    forall job | job in t.pool.submitted ensures exists id :: WrittenBy(t.demux, job, id) {
      if job in s.pool.submitted {
        var id :| WrittenBy(s.demux, job, id);
        assert WrittenBy(t.demux, job, id);
      } else {
        assert WrittenBy(t.demux, job, go.id);
      }
    }
  }

  lemma GoKeepsGenuine(s: System, go: Demux.Action)
    requires SystemInv(s) && Enabled(s, Go(go))
    ensures DemuxGenuine(Apply(s, Go(go)))
  {
    hide Pool.LoopInv, Pool.Conserved, Pool.LostWithChild, Pool.Seen, Once.AtMostOnce, Demux.DemuxInv, SubmittedByCalls;
    var t := Apply(s, Go(go));
    DemuxGenuineStays(s, t.pool);
    if go.ReadReply? {
      Pool.GenuineStays(s.pool, t.pool);
      assert Pool.Genuine(s.pool, go.reply);
    }
    forall id | id in t.demux.calls ensures CallGenuine(t.pool, t.demux.calls[id]) {
      if id in s.demux.calls { assert CallGenuine(t.pool, s.demux.calls[id]); }
    }
  }

  lemma PoolStepAnswers(s: System, step: Pool.Action)
    requires PoolInv(s.pool) && AnsweredOnPipe(s) && Pool.Enabled(s.pool, step)
    ensures AnsweredOnPipe(Apply(s, InPool(step)))
  {
    hide Pool.Apply, Pool.LoopInv, Pool.Seen, Pool.Conserved, Once.AtMostOnce;
    Pool.AnswersAreWritten(s.pool, step);
    if step.TakeLine? {
      assert Pool.LineKnown(s.pool, s.pool.phase.lines[0]);
    }
    var out := Pool.Written(s.pool, step);
    assert s.read + (s.pool.stdout + out) == (s.read + s.pool.stdout) + out;
    Pool.NumbersJoin(s.read + s.pool.stdout, out);
  }

  lemma GoKeepsAnswers(s: System, go: Demux.Action)
    requires AnsweredOnPipe(s) && Enabled(s, Go(go))
    ensures AnsweredOnPipe(Apply(s, Go(go)))
  {
    hide Demux.Apply, Demux.Enabled;
    if go.ReadReply? {
      assert s.read + [go.reply] + s.pool.stdout[1..] == s.read + s.pool.stdout;
    }
  }

  /** Every step of the whole system keeps the invariant. */
  lemma SystemInvStep(s: System, a: Action)
    requires SystemInv(s) && Enabled(s, a)
    ensures SystemInv(Apply(s, a))
  {
    match a
    case Go(go) =>
      Demux.DemuxInvStep(s.demux, go);
      GoKeepsPoolInv(s, go);
      GoKeepsSubmitted(s, go);
      GoKeepsGenuine(s, go);
      GoKeepsAnswers(s, go);
    case InPool(step) =>
      PoolInvStep(s.pool, step);
      DemuxGenuineStays(s, Apply(s, a).pool);
      PoolStepAnswers(s, step);
    case SendQuit =>
      PipeKeepsPoolInv(s.pool, Apply(s, a).pool);
      DemuxGenuineStays(s, Apply(s, a).pool);
    case CloseStdin =>
      PipeKeepsPoolInv(s.pool, Apply(s, a).pool);
      DemuxGenuineStays(s, Apply(s, a).pool);
  }

  lemma {:induction false} SystemInvOnRuns(a: System, steps: seq<Action>, b: System)
    requires SystemInv(a) && Run(a, steps, b)
    ensures SystemInv(b)
    decreases |steps|
  {
    if steps != [] {
      SystemInvStep(a, steps[0]);
      SystemInvOnRuns(Apply(a, steps[0]), steps[1..], b);
    }
  }

  // ---------------------------------------------------------------- what every run guarantees

  ghost predicate HasResult(c: Demux.Call, r: Demux.Result) {
    (c.stage.Finishing? || c.stage.Returned?) && c.stage.result == r
  }

  /**
   In every run, whatever reply a RenderChunk call ends with carries the call's own number and is
   the answer to one execution of that call's own page range and output path. A reply to one call,
   however late, is never the result of another.
   */
  lemma ReplyMatchesCall(children: nat, steps: seq<Action>, s: System, id: nat, reply: Reply)
    requires Run(Initial(children), steps, s)
    requires id in s.demux.calls && HasResult(s.demux.calls[id], Demux.Got(Demux.FromWorker(reply)))
    ensures reply.seqNo == s.demux.calls[id].seqNo
    ensures exists outcome ::
      && Pool.Execution(JobOf(s.demux.calls[id]), outcome) in s.pool.executed
      && reply == Answer(JobOf(s.demux.calls[id]), outcome)
    ensures forall other <- s.demux.calls.Keys ::
      HasResult(s.demux.calls[other], Demux.Got(Demux.FromWorker(reply))) ==> other == id
  {
    InitialInv(children);
    SystemInvOnRuns(Initial(children), steps, s);
    var c := s.demux.calls[id];
    assert Demux.CallInv(s.demux, id) && CallGenuine(s.pool, c);
    var e :| e in s.pool.executed && e.job in s.pool.submitted && reply == Answer(e.job, e.outcome);
    var writer :| WrittenBy(s.demux, e.job, writer);
    assert writer == id;
    forall other | other in s.demux.calls && HasResult(s.demux.calls[other], Demux.Got(Demux.FromWorker(reply)))
      ensures other == id
    {
      assert Demux.CallInv(s.demux, other);
    }
  }

  /** A call that reports success had its own range rendered, without error, to its own path. */
  lemma SuccessMeansRendered(children: nat, steps: seq<Action>, s: System, id: nat, seqNo: int, output: string)
    requires Run(Initial(children), steps, s)
    requires id in s.demux.calls && HasResult(s.demux.calls[id], Demux.Got(Demux.FromWorker(Done(seqNo, output))))
    ensures output == s.demux.calls[id].req.output
    ensures !BadArgs(s.demux.calls[id].req)
    ensures Pool.Execution(JobOf(s.demux.calls[id]), Rendered) in s.pool.executed
  {
    ReplyMatchesCall(children, steps, s, id, Done(seqNo, output));
    var outcome :| Pool.Execution(JobOf(s.demux.calls[id]), outcome) in s.pool.executed
      && Done(seqNo, output) == Answer(JobOf(s.demux.calls[id]), outcome);
  }

  /** Every render that ever ran was asked for by a call, with the call's range and path. */
  lemma ExecutedForACall(children: nat, steps: seq<Action>, s: System, e: Pool.Execution)
    requires Run(Initial(children), steps, s) && e in s.pool.executed
    ensures exists id :: WrittenBy(s.demux, e.job, id)
  {
    InitialInv(children);
    SystemInvOnRuns(Initial(children), steps, s);
  }

  /** And at most once: one render, with one outcome, for each command. */
  lemma ExecutedAtMostOnce(children: nat, steps: seq<Action>, s: System, e: Pool.Execution, f: Pool.Execution)
    requires Run(Initial(children), steps, s) && e in s.pool.executed && f in s.pool.executed
    requires e.job.seqNo == f.job.seqNo
    ensures e == f
  {
    hide Run;
    InitialInv(children);
    SystemInvOnRuns(Initial(children), steps, s);
  }

  /** Every command ever written is some call's own, with a number given out. */
  lemma SubmittedForACall(children: nat, steps: seq<Action>, s: System, job: Job) returns (id: nat)
    requires Run(Initial(children), steps, s) && job in s.pool.submitted
    ensures id in s.demux.calls && JobOf(s.demux.calls[id]) == job
    ensures 1 <= job.seqNo <= s.demux.lastSeqNo
  {
    InitialInv(children);
    SystemInvOnRuns(Initial(children), steps, s);
    id :| WrittenBy(s.demux, job, id);
    assert Demux.CallInv(s.demux, id);
  }

  /** Every reply in the pipe answers a command that was written. */
  lemma ReplyOnPipe(children: nat, steps: seq<Action>, s: System, reply: Reply) returns (job: Job)
    requires Run(Initial(children), steps, s) && reply in s.pool.stdout
    ensures job in s.pool.submitted && job.seqNo == reply.seqNo
    ensures reply.Done? ==> reply.output == job.req.output
  {
    hide Run;
    InitialInv(children);
    SystemInvOnRuns(Initial(children), steps, s);
    assert Pool.Genuine(s.pool, reply);
    var e :| e in s.pool.executed && e.job in s.pool.submitted && reply == Answer(e.job, e.outcome);
    job := e.job;
  }

  /** In every run no channel ever gets two messages, and the reader never blocks on a send. */
  lemma ReaderNeverBlocks(children: nat, steps: seq<Action>, s: System)
    requires Run(Initial(children), steps, s)
    ensures forall id <- s.demux.calls.Keys :: s.demux.calls[id].delivered <= 1
    ensures s.demux.reader.Holding? ==>
      Enabled(s, Go(Demux.SendHeld)) && s.demux.calls[s.demux.reader.id].channel == []
    ensures forall no <- s.demux.pending.Keys ::
      s.demux.pending[no] in s.demux.calls && s.demux.calls[s.demux.pending[no]].channel == []
  {
    InitialInv(children);
    SystemInvOnRuns(Initial(children), steps, s);
    forall id | id in s.demux.calls ensures s.demux.calls[id].delivered <= 1 {
      assert Demux.CallInv(s.demux, id);
    }
    forall no | no in s.demux.pending ensures s.demux.calls[s.demux.pending[no]].channel == [] {
      assert Demux.CallInv(s.demux, s.demux.pending[no]);
    }
    if s.demux.reader.Holding? {
      Demux.HeldSendFits(s.demux);
    }
  }

  /** The commands child i has been given and not yet been seen to answer, and whether it lives. */
  ghost predicate BusyIffOneUnanswered(p: Pool.Pool, i: nat)
    requires i < |p.children| == |p.loop.busy|
  {
    var unanswered := Pool.Load(p, i);
    unanswered <= 1 && (p.children[i].alive ==> (p.loop.busy[i] <==> unanswered == 1))
  }

  /**
   In every run, at the head of the leader's loop: the leader is not busy, nothing is queued, no
   command is refused (the next one goes to a child or to the leader), and a live child is marked
   busy exactly when it has one unanswered command.
   */
  lemma LoopHeadState(children: nat, steps: seq<Action>, s: System)
    requires Run(Initial(children), steps, s) && s.pool.phase.Head?
    ensures !s.pool.loop.leaderBusy && s.pool.loop.pending == []
    ensures !Assign(s.pool.loop).Queued?
    ensures |s.pool.children| == |s.pool.loop.busy|
    ensures forall i :: 0 <= i < |s.pool.children| ==> BusyIffOneUnanswered(s.pool, i)
  {
    InitialInv(children);
    SystemInvOnRuns(Initial(children), steps, s);
    forall i | 0 <= i < |s.pool.children| ensures BusyIffOneUnanswered(s.pool, i) {
      assert Pool.ChildInv(s.pool, i);
    }
  }

  /** A render command taken off a batch is always placed: try_assign never refuses. */
  lemma NothingIsQueued(children: nat, steps: seq<Action>, s: System)
    requires Run(Initial(children), steps, s) && Enabled(s, InPool(Pool.TakeLine))
    ensures !Assign(s.pool.loop).Queued?
    ensures Apply(s, InPool(Pool.TakeLine)).pool.loop.pending == []
  {
    hide Run, Pool.Apply, Demux.DemuxInv, SubmittedByCalls, DemuxGenuine, AnsweredOnPipe, AllSeen;
    hide Pool.Conserved, Pool.Provenance, Pool.LostWithChild, Pool.Seen, Once.AtMostOnce;
    InitialInv(children);
    SystemInvOnRuns(Initial(children), steps, s);
    Pool.LoopInvStep(s.pool, Pool.TakeLine);
    LineIsNoCrash(s.pool);
  }

  lemma LineIsNoCrash(p: Pool.Pool)
    requires Pool.Enabled(p, Pool.TakeLine)
    ensures !Pool.Apply(p, Pool.TakeLine).phase.Crashed?
  {
    hide FirstIdle;
  }

  /**
   In every run the loop is left exactly when stdin is closed, by its end or by a quit, and no child
   is busy: neither the queue nor the leader's flag ever decides, and the test that breaks the loop
   after a quit never ends it before the loop condition would.
   */
  lemma LoopEndsWhenIdle(children: nat, steps: seq<Action>, s: System)
    requires Run(Initial(children), steps, s) && Enabled(s, InPool(Pool.EndIteration))
    ensures Apply(s, InPool(Pool.EndIteration)).pool.phase.Exited? <==> !s.pool.loop.stdinOpen && s.pool.loop.AllIdle()
    ensures s.pool.loop.GoesOn() <==> s.pool.loop.stdinOpen || !s.pool.loop.AllIdle()
    ensures s.pool.loop.Breaks() ==> !s.pool.loop.GoesOn()
  {
    hide Run, Demux.DemuxInv, SubmittedByCalls, DemuxGenuine, Pool.Conserved, Pool.Provenance, Pool.LostWithChild, Pool.Seen, Once.AtMostOnce;
    InitialInv(children);
    SystemInvOnRuns(Initial(children), steps, s);
  }

  lemma IdleChildrenHoldNothing(children: seq<Pool.Child>, s: int)
    requires forall c <- children :: |c.inbox| + Pool.WorkSize(c.work) + |c.outbox| == 0
    ensures Pool.HeldByAll(children, s) == 0
  {
  }

  /** How often a reply numbered so has been put on the leader's stdout. */
  function Replied(s: System, no: int): nat {
    Pool.ReplyTimes(s.read + s.pool.stdout, no)
  }

  /** In every run, what counts as answered is what has been put on the pipe, read or not. */
  lemma AnswersAreOnThePipe(children: nat, steps: seq<Action>, s: System, no: int)
    requires Run(Initial(children), steps, s)
    ensures Pool.Numbers(s.read + s.pool.stdout) == s.pool.answered
    ensures Replied(s, no) == Pool.Times(s.pool.answered, no)
  {
    hide Run, PoolInv;
    InitialInv(children);
    SystemInvOnRuns(Initial(children), steps, s);
    Pool.NumbersTimes(s.read + s.pool.stdout, no);
  }

  /**
   When the leader's loop ends, every command it accepted has had exactly one reply put on the pipe
   or was lost exactly once with a child that died; with all children alive every one has its reply.
   Unless a quit was read, every command ever written was accepted or is still unread.
   */
  lemma ExitAnswersEveryCommand(children: nat, steps: seq<Action>, s: System, no: int)
    requires Run(Initial(children), steps, s) && s.pool.phase.Exited?
    ensures Pool.Times(s.pool.accepted, no) == Replied(s, no) + Pool.Times(s.pool.lost, no) <= 1
    ensures (forall c <- s.pool.children :: c.alive) ==> s.pool.lost == []
    ensures !s.pool.loop.quitting ==>
      forall job <- s.pool.submitted :: Pool.Times(s.pool.accepted, job.seqNo) + Pool.LineTimes(s.pool.stdin, job.seqNo) == 1
  {
    AnswersAreOnThePipe(children, steps, s, no);
    InitialInv(children);
    SystemInvOnRuns(Initial(children), steps, s);
    var p := s.pool;
    forall c | c in p.children ensures |c.inbox| + Pool.WorkSize(c.work) + |c.outbox| == 0 {
      var i :| 0 <= i < |p.children| && p.children[i] == c;
      assert Pool.ChildInv(p, i);
    }
    IdleChildrenHoldNothing(p.children, no);
    assert Pool.Conserved(p, no);
    assert Pool.Seen(p, no) <= 1;
  }

  /** While the leader runs, an accepted command is in exactly one place. */
  lemma AcceptedIsInOnePlace(children: nat, steps: seq<Action>, s: System, no: int)
    requires Run(Initial(children), steps, s) && !s.pool.phase.Crashed?
    requires no in s.pool.accepted
    ensures Pool.Times(s.pool.answered, no) + Pool.Times(s.pool.lost, no)
          + Pool.HeldByAll(s.pool.children, no) + Pool.InLeader(s.pool.phase, no) == 1
  {
    InitialInv(children);
    SystemInvOnRuns(Initial(children), steps, s);
    assert Pool.Conserved(s.pool, no);
    assert Pool.Seen(s.pool, no) <= 1;
  }

  // ---------------------------------------------------------------- a command the protocol does lose

  lemma RunSnoc(a: System, steps: seq<Action>, b: System, last: Action)
    requires Run(a, steps, b) && Enabled(b, last)
    ensures Run(a, steps + [last], Apply(b, last))
    decreases |steps|
  {
    if steps == [] {
      assert [last][1..] == [];
    } else {
      RunSnoc(Apply(a, steps[0]), steps[1..], b, last);
      assert (steps + [last])[1..] == steps[1..] + [last];
    }
  }

  /** No process is killed from outside in these steps. */
  ghost predicate Undisturbed(steps: seq<Action>) {
    forall a <- steps :: a != InPool(Pool.Crash) && !(a.InPool? && a.step.ChildDie?)
  }

  const REQUEST := Request(1, 1, "a.pdf")

  /** A call starts, registers and writes its command. */
  lemma CommandWritten(a: System, before: seq<Action>, s: System, id: nat) returns (steps: seq<Action>, t: System)
    requires Run(a, before, s) && Undisturbed(before)
    requires id !in s.demux.calls
    ensures Run(a, steps, t) && Undisturbed(steps)
    ensures t.demux.calls.Keys == s.demux.calls.Keys + {id} && t.demux.lastSeqNo == s.demux.lastSeqNo + 1
    ensures t.pool == Submit(s.pool, Job(s.demux.lastSeqNo + 1, REQUEST))
  {
    hide Run;
    var start, register, write := Go(Demux.Start(id, REQUEST)), Go(Demux.Register(id)), Go(Demux.Write(id));
    RunSnoc(a, before, s, start);
    var s1 := Apply(s, start);
    RunSnoc(a, before + [start], s1, register);
    var s2 := Apply(s1, register);
    RunSnoc(a, before + [start] + [register], s2, write);
    steps, t := before + [start] + [register] + [write], Apply(s2, write);
  }

  /** The leader, its one child marked idle, reads the only command and sends it to the child. */
  lemma CommandDispatched(a: System, before: seq<Action>, s: System, job: Job) returns (steps: seq<Action>, t: System)
    requires Run(a, before, s) && Undisturbed(before)
    requires s.pool.phase.Head? && s.pool.stdin == [Render(job)] && |s.pool.children| == 1
    requires s.pool.loop == Loop([false], [], false, true, false)
    ensures Run(a, steps, t) && Undisturbed(steps)
    ensures t.demux == s.demux && t.pool.phase == Pool.Children(0) && t.pool.stdin == []
    ensures t.pool.loop == Loop([true], [], false, true, false)
    ensures t.pool.children == Pool.Dispatch(s.pool, 0, job).children
    ensures t.pool.lost == Pool.Dispatch(s.pool, 0, job).lost
  {
    hide Run;
    var poll, take, end := InPool(Pool.Poll(1, false)), InPool(Pool.TakeLine), InPool(Pool.EndBatch);
    RunSnoc(a, before, s, poll);
    var s1 := Apply(s, poll);
    assert s1.pool.phase == Pool.Batch([Render(job)], false) && s1.pool.stdin == [];
    assert FirstIdle([false]) == 0;
    RunSnoc(a, before + [poll], s1, take);
    var s2 := Apply(s1, take);
    assert s2.pool.phase == Pool.Batch([], false);
    assert [false][0 := true] == [true];
    RunSnoc(a, before + [poll] + [take], s2, end);
    steps, t := before + [poll] + [take] + [end], Apply(s2, end);
  }

  /** The child takes its job, runs out of memory in it, answers and exits. */
  lemma ChildAnswersAndDies(a: System, before: seq<Action>, s: System, job: Job) returns (steps: seq<Action>, t: System)
    requires Run(a, before, s) && Undisturbed(before)
    requires Pool.Running(s.pool) && s.pool.loop == Loop([true], [], false, true, false)
    requires s.pool.children == [Pool.Child([job], None, [], true)] && !BadArgs(job.req)
    ensures Run(a, steps, t) && Undisturbed(steps)
    ensures t == s.(pool := s.pool.(children := t.pool.children, executed := t.pool.executed))
    ensures t.pool.children == [Pool.Child([], None, [Answer(job, BadAlloc)], false)]
  {
    hide Run;
    var take, finish := InPool(Pool.ChildTake(0)), InPool(Pool.ChildFinish(0, BadAlloc));
    RunSnoc(a, before, s, take);
    var s1 := Apply(s, take);
    assert [job][1..] == [];
    assert s1.pool.children == [Pool.Child([], Some(job), [], true)];
    RunSnoc(a, before + [take], s1, finish);
    steps, t := before + [take] + [finish], Apply(s1, finish);
    assert s1.pool.children[0].outbox + [Answer(job, BadAlloc)] == [Answer(job, BadAlloc)];
    assert t.pool.lost == s.pool.lost + Pool.SeqNos([]) == s.pool.lost;
  }

  /** The leader forwards that answer without yet seeing that the socket is closed. */
  lemma LastAnswerForwarded(a: System, before: seq<Action>, s: System, answer: Reply) returns (steps: seq<Action>, t: System)
    requires Run(a, before, s) && Undisturbed(before)
    requires s.pool.phase == Pool.Children(0) && s.pool.loop == Loop([true], [], false, true, false)
    requires s.pool.children == [Pool.Child([], None, [answer], false)]
    ensures Run(a, steps, t) && Undisturbed(steps)
    ensures t.demux == s.demux && t.pool.phase.Head? && t.pool.stdin == s.pool.stdin && t.pool.lost == s.pool.lost
    ensures t.pool.loop == Loop([false], [], false, true, false)
    ensures t.pool.children == [Pool.Child([], None, [], false)]
  {
    hide Run, Demux.Apply, Demux.Enabled, Answer, Pool.Dispatch, FirstIdle;
    var drain, forward := InPool(Pool.DrainChild(1, false)), InPool(Pool.Forward);
    RunSnoc(a, before, s, drain);
    var s1 := Apply(s, drain);
    assert [answer][..1] == [answer] && [answer][1..] == [];
    assert s1.pool.children == [Pool.Child([], None, [], false)];
    RunSnoc(a, before + [drain], s1, forward);
    var s2 := Apply(s1, forward);
    assert s2.pool.loop.busy == [false];
    steps, t := OnlyChildDone(a, before + [drain] + [forward], s2);
  }

  lemma OnlyChildDone(a: System, before: seq<Action>, s: System) returns (steps: seq<Action>, t: System)
    requires Run(a, before, s) && Undisturbed(before)
    requires s.pool.phase == Pool.Replies(0, [], false) && s.pool.loop == Loop([false], [], false, true, false) && |s.pool.children| == 1
    ensures Run(a, steps, t) && Undisturbed(steps)
    ensures t == s.(pool := s.pool.(phase := Pool.Head))
  {
    hide Run, Demux.Apply, Demux.Enabled;
    var endReplies, endIteration := InPool(Pool.EndReplies), InPool(Pool.EndIteration);
    RunSnoc(a, before, s, endReplies);
    var s1 := Apply(s, endReplies);
    RunSnoc(a, before + [endReplies], s1, endIteration);
    steps, t := before + [endReplies] + [endIteration], Apply(s1, endIteration);
  }

  /** One call, answered; the child that answered it is gone, and the leader takes it for idle. */
  lemma AnsweredByADeadChild() returns (steps: seq<Action>, s: System)
    ensures Run(Initial(1), steps, s) && Undisturbed(steps)
    ensures 1 !in s.demux.calls && s.demux.lastSeqNo == 1 && s.pool.phase.Head? && s.pool.stdin == [] && s.pool.lost == []
    ensures s.pool.loop == Loop([false], [], false, true, false)
    ensures s.pool.children == [Pool.Child([], None, [], false)]
  {
    var a := Initial(1);
    assert Run(a, [], a);
    hide Run, Undisturbed;
    assert a.pool.loop.busy == [false] && a.pool.children == [Pool.FRESH_CHILD];
    var first := Job(1, REQUEST);
    assert Undisturbed([]) by { NothingDisturbs(); }
    var steps1, s1 := CommandWritten(a, [], a, 0);
    var steps2, s2 := CommandDispatched(a, steps1, s1, first);
    assert Pool.FRESH_CHILD.inbox + [first] == [first];
    assert s2.pool.children == [Pool.Child([first], None, [], true)];
    var steps3, s3 := ChildAnswersAndDies(a, steps2, s2, first);
    steps, s := LastAnswerForwarded(a, steps3, s3, Answer(first, BadAlloc));
  }

  lemma NothingDisturbs()
    ensures Undisturbed([])
  {
  }

  /**
   "Answered exactly once" needs children that live. A child that runs out of memory answers and
   exits; the leader sees the answer before the closed socket, takes the child for idle, and the
   next command goes to a process that is no longer there.
   */
  lemma ChildOutOfMemoryLosesNextCommand() returns (steps: seq<Action>, s: System)
    ensures Run(Initial(1), steps, s) && Undisturbed(steps)
    ensures s.pool.lost == [2]
  {
    hide Run, Undisturbed, Initial;
    var steps1, s1 := AnsweredByADeadChild();
    var steps2, s2 := CommandWritten(Initial(1), steps1, s1, 1);
    steps, s := CommandDispatched(Initial(1), steps2, s2, Job(2, REQUEST));
  }
}
