/** No render command is executed twice: what has run is nowhere left to be run. */
module ForkOnce {
  import opened Basics
  import opened PoolProtocol
  import opened ForkPool

  function Ahead(c: Child, s: int): nat {
    JobTimes(c.inbox, s) + JobTimes(InWork(c.work), s)
  }

  function AheadOfAll(children: seq<Child>, s: int): nat {
    if children == [] then 0
    else AheadOfAll(children[..|children| - 1], s) + Ahead(children[|children| - 1], s)
  }

  function InlineJob(phase: Phase, s: int): nat {
    if phase.Inline? && phase.job.seqNo == s then 1 else 0
  }

  /** How often command s is somewhere on its way to being executed. */
  function StillToRun(p: Pool, s: int): nat {
    LineTimes(p.stdin, s) + LineTimes(PhaseLines(p.phase), s) + InlineJob(p.phase, s) + JobTimes(p.loop.pending, s)
    + AheadOfAll(p.children, s)
  }

  /** Commands on their way are so once, those executed no longer, and those once. */
  ghost predicate AtMostOnce(p: Pool) {
    && (forall s :: StillToRun(p, s) <= 1)
    && (forall e <- p.executed :: StillToRun(p, e.job.seqNo) == 0)
    && (forall e, f :: e in p.executed && f in p.executed && e.job.seqNo == f.job.seqNo ==> e == f)
  }

  lemma {:induction false} AheadUpdate(children: seq<Child>, i: nat, c: Child, s: int)
    requires i < |children|
    ensures AheadOfAll(children[i := c], s) == AheadOfAll(children, s) - Ahead(children[i], s) + Ahead(c, s)
  {
    hide Ahead;
    var n := |children|;
    var updated, front := children[i := c], children[..n - 1];
    if i == n - 1 {
      assert updated[..n - 1] == front;
    } else {
      AheadUpdate(front, i, c, s);
      assert updated[..n - 1] == front[i := c];
    }
  }

  /** A command that is handed to a child is on its way there, or lost. */
  lemma DispatchAhead(p: Pool, i: nat, job: Job, s: int)
    requires i < |p.loop.busy| == |p.children|
    ensures var q := Dispatch(p, i, job);
      && AheadOfAll(q.children, s) <= AheadOfAll(p.children, s) + (if job.seqNo == s then 1 else 0)
      && q.loop.pending == p.loop.pending && q.executed == p.executed
      && q.phase == p.phase && q.stdin == p.stdin
  {
    var c := p.children[i];
    if c.alive {
      JobTimesSplit(c.inbox, [job], s);
      AheadUpdate(p.children, i, c.(inbox := c.inbox + [job]), s);
    }
  }

  lemma AheadTakeLine(p: Pool, s: int)
    requires Enabled(p, TakeLine)
    ensures StillToRun(Apply(p, TakeLine), s) <= StillToRun(p, s) && Apply(p, TakeLine).executed == p.executed
  {
    hide AheadOfAll, Dispatch;
    var Batch(lines, eof) := p.phase;
    match lines[0]
    case Quit =>
    case Unknown(_, _) =>
    case Render(job) =>
      var q := p.(accepted := p.accepted + [job.seqNo], phase := Batch(lines[1..], eof));
      if Assign(p.loop).ToChild? {
        DispatchAhead(q, Assign(p.loop).i, job, s);
      }
      JobTimesSplit(p.loop.pending, [job], s);
  }

  lemma AheadForward(p: Pool, s: int)
    requires Enabled(p, Forward)
    ensures StillToRun(Apply(p, Forward), s) <= StillToRun(p, s) && Apply(p, Forward).executed == p.executed
  {
    hide AheadOfAll, Dispatch;
    var Replies(i, replies, dead) := p.phase;
    var q := p.(phase := Replies(i, replies[1..], dead), stdout := p.stdout + [replies[0]],
                answered := p.answered + [replies[0].seqNo], loop := p.loop.(busy := p.loop.busy[i := false]));
    if q.loop.pending != [] {
      DispatchAhead(q.(loop := q.loop.(pending := q.loop.pending[1..])), i, q.loop.pending[0], s);
    }
  }

  lemma AheadChild(p: Pool, a: Action, s: int)
    requires Enabled(p, a) && (a.ChildTake? || a.ChildFinish? || a.ChildDie? || a.DrainChild?)
    ensures StillToRun(Apply(p, a), s) <= StillToRun(p, s) - Finishing(p, a, s)
  {
    hide AheadOfAll;
    var i := if a.DrainChild? then p.phase.next else a.i;
    AheadUpdate(p.children, i, Apply(p, a).children[i], s);
    var c := p.children[i];
    if a.ChildTake? {
      assert InWork(Some(c.inbox[0])) == [c.inbox[0]];
      assert JobTimes([c.inbox[0]], s) == if c.inbox[0].seqNo == s then 1 else 0;
    } else if a.ChildFinish? {
      assert InWork(c.work) == [c.work.value];
      assert JobTimes([c.work.value], s) == if c.work.value.seqNo == s then 1 else 0;
    }
  }

  /** The job whose render ends with this step. */
  function Ending(p: Pool, a: Action): Option<Execution>
    requires a.FinishInline? ==> p.phase.Inline?
    requires a.ChildFinish? ==> a.i < |p.children| && p.children[a.i].work.Some?
  {
    match a
    case FinishInline(outcome) => Some(Execution(p.phase.job, outcome))
    case ChildFinish(i, outcome) => Some(Execution(p.children[i].work.value, outcome))
    case _ => None
  }

  ghost function Finishing(p: Pool, a: Action, s: int): nat
    requires Enabled(p, a)
  {
    if Ending(p, a).Some? && Ending(p, a).value.job.seqNo == s then 1 else 0
  }

  /** No step adds a command, and the end of a render takes its command away. */
  lemma StillToRunStep(p: Pool, a: Action, s: int)
    requires Enabled(p, a)
    ensures StillToRun(Apply(p, a), s) <= StillToRun(p, s) - Finishing(p, a, s)
  {
    hide AheadOfAll, Dispatch;
    match a
    case Poll(n, _) =>
      LineTimesSplit(p.stdin[..n], p.stdin[n..], s);
      assert p.stdin[..n] + p.stdin[n..] == p.stdin;
    case TakeLine => AheadTakeLine(p, s);
    case Forward => AheadForward(p, s);
    case DrainChild(_, _) => AheadChild(p, a, s);
    case ChildTake(_) => AheadChild(p, a, s);
    case ChildFinish(_, _) => AheadChild(p, a, s);
    case ChildDie(_) => AheadChild(p, a, s);
    case _ =>
  }

  lemma ExecutedStep(p: Pool, a: Action)
    requires Enabled(p, a)
    ensures Apply(p, a).executed == p.executed + (if Ending(p, a).Some? then {Ending(p, a).value} else {})
  {
    hide StillToRun, Dispatch;
    if a.TakeLine? {
      AheadTakeLine(p, 0);
    } else if a.Forward? {
      AheadForward(p, 0);
    }
  }

  /** Every step keeps executions at most one a command. */
  lemma AtMostOnceStep(p: Pool, a: Action)
    requires AtMostOnce(p) && Enabled(p, a)
    ensures AtMostOnce(Apply(p, a))
  {
    hide StillToRun, Apply, Ending, Enabled;
    var q := Apply(p, a);
    ExecutedStep(p, a);
    forall s ensures StillToRun(q, s) <= StillToRun(p, s) - Finishing(p, a, s) {
      StillToRunStep(p, a, s);
    }
  }

  lemma {:induction false} NothingAhead(children: seq<Child>, s: int)
    requires forall i :: 0 <= i < |children| ==> children[i] == FRESH_CHILD
    ensures AheadOfAll(children, s) == 0
  {
    if children != [] {
      NothingAhead(children[..|children| - 1], s);
    }
  }

  lemma StartsWithNothingToRun(children: nat)
    ensures AtMostOnce(Start(children))
  {
    forall s ensures StillToRun(Start(children), s) == 0 {
      NothingAhead(Start(children).children, s);
    }
  }

  // ---------------------------------------------------------------- what is to be run was submitted

  lemma {:induction false} LineOf(lines: seq<Line>, s: int) returns (job: Job)
    requires LineTimes(lines, s) > 0
    ensures Render(job) in lines && job.seqNo == s
  {
    if lines[0].Render? && lines[0].job.seqNo == s {
      job := lines[0].job;
    } else {
      job := LineOf(lines[1..], s);
    }
  }

  lemma {:induction false} JobOfTimes(jobs: seq<Job>, s: int) returns (job: Job)
    requires JobTimes(jobs, s) > 0
    ensures job in jobs && job.seqNo == s
  {
    if jobs[0].seqNo == s {
      job := jobs[0];
    } else {
      job := JobOfTimes(jobs[1..], s);
    }
  }

  lemma {:induction false} ChildOf(children: seq<Child>, s: int) returns (c: Child)
    requires AheadOfAll(children, s) > 0
    ensures c in children && Ahead(c, s) > 0
  {
    c := children[|children| - 1];
    if Ahead(c, s) == 0 {
      c := ChildOf(children[..|children| - 1], s);
    }
  }

  lemma ToRunWasSubmitted(p: Pool, s: int) returns (job: Job)
    requires Provenance(p) && StillToRun(p, s) > 0
    ensures job in p.submitted && job.seqNo == s
  {
    hide AheadOfAll, LineTimes, JobTimes;
    if LineTimes(p.stdin, s) > 0 {
      job := LineOf(p.stdin, s);
      assert LineKnown(p, Render(job));
    } else if LineTimes(PhaseLines(p.phase), s) > 0 {
      job := LineOf(PhaseLines(p.phase), s);
      assert LineKnown(p, Render(job));
    } else if InlineJob(p.phase, s) > 0 {
      job := p.phase.job;
    } else if JobTimes(p.loop.pending, s) > 0 {
      job := JobOfTimes(p.loop.pending, s);
    } else {
      var c := ChildOf(p.children, s);
      assert ChildGenuine(p, c);
      job := JobOfTimes(if JobTimes(c.inbox, s) > 0 then c.inbox else InWork(c.work), s);
    }
  }

  /** A command with a number not seen before may be added. */
  lemma SubmitKeepsOnce(p: Pool, q: Pool, job: Job)
    requires AtMostOnce(p) && Provenance(p) && forall j <- p.submitted :: j.seqNo != job.seqNo
    requires q == p.(stdin := p.stdin + [Render(job)], submitted := q.submitted)
    ensures AtMostOnce(q)
  {
    forall s ensures StillToRun(q, s) == StillToRun(p, s) + (if job.seqNo == s then 1 else 0) {
      LineTimesSplit(p.stdin, [Render(job)], s);
      assert LineTimes([Render(job)], s) == if job.seqNo == s then 1 else 0;
    }
    if StillToRun(p, job.seqNo) > 0 {
      var j := ToRunWasSubmitted(p, job.seqNo);
    }
    hide StillToRun;
    forall e | e in q.executed ensures StillToRun(q, e.job.seqNo) == 0 {
      assert e.job in p.submitted;
    }
  }

  /** What is no render command, and what is read off stdout, adds nothing. */
  lemma PipeKeepsOnce(p: Pool, q: Pool)
    requires AtMostOnce(p)
    requires q == p.(stdin := q.stdin, stdinClosed := q.stdinClosed, stdout := q.stdout)
    requires q.stdin == p.stdin || q.stdin == p.stdin + [Quit]
    ensures AtMostOnce(q)
  {
    forall s ensures StillToRun(q, s) == StillToRun(p, s) {
      LineTimesSplit(p.stdin, [Quit], s);
    }
  }
}
