/**
 The leader's event loop as code: its variables, the two handlers of its body and its conditions.
 BatchRefinesSteps and RepliesRefineSteps tie the handlers to the step system.
 */
module PoolLoop {
  import opened PoolProtocol
  import Pool = ForkPool

  /** The loop's variables with what has been written to each child's socket and to stdout. */
  datatype LoopState = LoopState(loop: Loop, sent: seq<seq<Job>>, stdout: seq<Reply>)

  ghost predicate WellSized(s: LoopState) {
    |s.sent| == |s.loop.busy|
  }

  function AfterDispatch(s: LoopState, i: nat, job: Job): (t: LoopState)
    requires i < |s.sent| == |s.loop.busy|
    ensures |t.sent| == |t.loop.busy| == |s.loop.busy|
  {
    s.(loop := s.loop.(busy := s.loop.busy[i := true]), sent := s.sent[i := s.sent[i] + [job]])
  }

  function AfterAssign(s: LoopState, job: Job, outcome: Outcome): (t: LoopState)
    requires |s.sent| == |s.loop.busy|
    ensures |t.sent| == |t.loop.busy| == |s.loop.busy|
  {
    match Assign(s.loop)
    case ToChild(i) => AfterDispatch(s, i, job)
    case ToLeader => s.(stdout := s.stdout + [Answer(job, outcome)])
    case Queued => s
  }

  function AfterLine(s: LoopState, line: Line, outcome: Outcome): (t: LoopState)
    requires |s.sent| == |s.loop.busy|
    ensures |t.sent| == |t.loop.busy| == |s.loop.busy|
  {
    match line
    case Quit => s.(loop := s.loop.(quitting := true, stdinOpen := false))
    case Unknown(no, cmd) => s.(stdout := s.stdout + [UnknownReply(no, cmd)])
    case Render(job) =>
      if Assign(s.loop).Queued? then s.(loop := s.loop.(pending := s.loop.pending + [job]))
      else AfterAssign(s, job, outcome)
  }

  /** The lines of one read, up to and including a quit; the rest is dropped. */
  function AfterLines(s: LoopState, lines: seq<Line>, outcomes: seq<Outcome>): (t: LoopState)
    requires |s.sent| == |s.loop.busy| && |outcomes| >= |lines|
    ensures |t.sent| == |t.loop.busy| == |s.loop.busy|
    decreases |lines|
  {
    if lines == [] then s
    else if lines[0].Quit? then AfterLine(s, lines[0], outcomes[0])
    else AfterLines(AfterLine(s, lines[0], outcomes[0]), lines[1..], outcomes[1..])
  }

  function AfterReply(s: LoopState, i: nat, reply: Reply): (t: LoopState)
    requires i < |s.sent| == |s.loop.busy|
    ensures |t.sent| == |t.loop.busy| == |s.loop.busy|
  {
    var t := s.(stdout := s.stdout + [reply], loop := s.loop.(busy := s.loop.busy[i := false]));
    if t.loop.pending == [] then t
    else AfterDispatch(t.(loop := t.loop.(pending := t.loop.pending[1..])), i, t.loop.pending[0])
  }

  function AfterReplies(s: LoopState, i: nat, replies: seq<Reply>): (t: LoopState)
    requires i < |s.sent| == |s.loop.busy|
    ensures |t.sent| == |t.loop.busy| == |s.loop.busy|
    decreases |replies|
  {
    if replies == [] then s else AfterReplies(AfterReply(s, i, replies[0]), i, replies[1..])
  }

  class EventLoop {
    const busy: array<bool>
    const sent: array<seq<Job>>
    var pending: seq<Job>
    var leaderBusy: bool
    var stdinOpen: bool
    var quitting: bool
    var stdout: seq<Reply>

    ghost predicate Valid()
      reads this
    {
      busy.Length == sent.Length
    }

    ghost function State(): (s: LoopState)
      reads this, busy, sent
      ensures Valid() ==> WellSized(s)
    {
      LoopState(Loop(busy[..], pending, leaderBusy, stdinOpen, quitting), sent[..], stdout)
    }

    constructor (children: nat)
      ensures Valid() && fresh(busy) && fresh(sent)
      ensures State() == LoopState(Pool.Start(children).loop, seq(children, _ => []), [])
    {
      busy := new bool[children](_ => false);
      sent := new seq<Job>[children](_ => []);
      pending, leaderBusy, stdinOpen, quitting, stdout := [], false, true, false, [];
      new;
      assert busy[..] == seq(children, _ => false);
      assert sent[..] == seq(children, _ => []);
    }

    method DispatchToChild(i: nat, job: Job)
      requires Valid() && i < busy.Length
      modifies busy, sent
      ensures State() == AfterDispatch(old(State()), i, job)
    {
      busy[i] := true;
      sent[i] := sent[i] + [job];
    }

    /** Renders inline when every child is busy; outcome is how that render ends. */
    method TryAssign(job: Job, outcome: Outcome) returns (placed: bool)
      requires Valid()
      modifies this, busy, sent
      ensures Valid()
      ensures placed == !Assign(old(State()).loop).Queued?
      ensures State() == AfterAssign(old(State()), job, outcome)
    {
      var i := 0;
      while i < busy.Length
        invariant 0 <= i <= busy.Length
        invariant State() == old(State())
        invariant forall j :: 0 <= j < i ==> busy[j]
      {
        if !busy[i] {
          assert FirstIdle(busy[..]) == i;
          DispatchToChild(i, job);
          return true;
        }
        i := i + 1;
      }
      assert FirstIdle(busy[..]) == busy.Length;
      if !leaderBusy {
        leaderBusy := true;
        stdout := stdout + [Answer(job, outcome)];
        leaderBusy := false;
        return true;
      }
      return false;
    }

    /** The stdin part of the loop body: the lines of one read, and whether stdin is still open. */
    method HandleStdin(lines: seq<Line>, outcomes: seq<Outcome>, alive: bool)
      requires Valid() && |outcomes| == |lines|
      modifies this, busy, sent
      ensures Valid()
      ensures var t := AfterLines(old(State()), lines, outcomes);
        State() == if alive then t else t.(loop := t.loop.(stdinOpen := false))
    {
      var i := 0;
      ghost var start := State();
      assert lines[0..] == lines && outcomes[0..] == outcomes;
      while i < |lines|
        invariant 0 <= i <= |lines| && Valid()
        invariant AfterLines(State(), lines[i..], outcomes[i..]) == AfterLines(start, lines, outcomes)
      {
        var line := lines[i];
        assert lines[i..][0] == line && lines[i..][1..] == lines[i + 1..];
        assert outcomes[i..][0] == outcomes[i] && outcomes[i..][1..] == outcomes[i + 1..];
        if line.Quit? {
          quitting := true;
          stdinOpen := false;
          break;
        }
        if line.Render? {
          var placed := TryAssign(line.job, outcomes[i]);
          if !placed {
            pending := pending + [line.job];
          }
        } else {
          stdout := stdout + [UnknownReply(line.seqNo, line.cmd)];
        }
        i := i + 1;
      }
      if !alive {
        stdinOpen := false;
      }
    }

    /** The part of the loop body for child i: the replies of one read, and whether its socket is still open. */
    method HandleChild(i: nat, replies: seq<Reply>, alive: bool)
      requires Valid() && i < busy.Length
      modifies this, busy, sent
      ensures Valid()
      ensures var t := AfterReplies(old(State()), i, replies);
        State() == if alive then t else t.(loop := t.loop.(busy := t.loop.busy[i := false]))
    {
      var k := 0;
      ghost var start := State();
      assert replies[0..] == replies;
      while k < |replies|
        invariant 0 <= k <= |replies| && Valid()
        invariant AfterReplies(State(), i, replies[k..]) == AfterReplies(start, i, replies)
      {
        assert replies[k..][0] == replies[k] && replies[k..][1..] == replies[k + 1..];
        stdout := stdout + [replies[k]];
        busy[i] := false;
        if pending != [] {
          var next := pending[0];
          pending := pending[1..];
          DispatchToChild(i, next);
        }
        k := k + 1;
      }
      if !alive {
        busy[i] := false;
      }
    }

    /** The loop condition, then the test that ends the body. */
    method GoesOn() returns (goesOn: bool)
      requires Valid()
      ensures goesOn == State().loop.GoesOn()
    {
      var idle := AllIdle();
      goesOn := stdinOpen || pending != [] || !idle;
    }

    method Breaks() returns (breaks: bool)
      requires Valid()
      ensures breaks == State().loop.Breaks()
    {
      var idle := AllIdle();
      breaks := quitting && !leaderBusy && idle;
    }

    method AllIdle() returns (idle: bool)
      requires Valid()
      ensures idle == State().loop.AllIdle()
    {
      for i := 0 to busy.Length
        invariant forall j :: 0 <= j < i ==> !busy[j]
      {
        if busy[i] {
          assert State().loop.busy[i];
          return false;
        }
      }
      return true;
    }
  }

  // ---------------------------------------------------------------- the handlers refine the step system

  /** s is the code's view of p, in a stretch that began at p0 with nothing sent. */
  ghost predicate Tracks(p0: Pool.Pool, p: Pool.Pool, s: LoopState) {
    && p.loop == s.loop && p.stdout == s.stdout
    && |p.children| == |p0.children| == |p.loop.busy| == |s.sent|
    && forall i :: 0 <= i < |p.children| && p.children[i].alive ==>
      p.children[i].inbox == p0.children[i].inbox + s.sent[i]
  }

  /** The leader's steps for one line: an inline render is two of them. */
  ghost function StepLine(p: Pool.Pool, outcome: Outcome): Pool.Pool
    requires Pool.Enabled(p, Pool.TakeLine)
  {
    var q := Pool.Apply(p, Pool.TakeLine);
    if q.phase.Inline? then Pool.Apply(q, Pool.FinishInline(outcome)) else q
  }

  lemma DispatchTracks(p0: Pool.Pool, p: Pool.Pool, s: LoopState, i: nat, job: Job)
    requires Tracks(p0, p, s) && i < |p.children|
    ensures Tracks(p0, Pool.Dispatch(p, i, job), AfterDispatch(s, i, job))
  {
  }

  ghost predicate LineMatches(p0: Pool.Pool, p: Pool.Pool, s: LoopState, outcome: Outcome)
    requires Pool.Enabled(p, Pool.TakeLine) && WellSized(s)
  {
    var q := StepLine(p, outcome);
    && Tracks(p0, q, AfterLine(s, p.phase.lines[0], outcome))
    && q.phase == if p.phase.lines[0].Quit? then Pool.Children(0) else Pool.Batch(p.phase.lines[1..], p.phase.eof)
  }

  lemma RenderToChildTracks(p0: Pool.Pool, p: Pool.Pool, s: LoopState, outcome: Outcome)
    requires Pool.Enabled(p, Pool.TakeLine) && Tracks(p0, p, s)
    requires p.phase.lines[0].Render? && Assign(p.loop).ToChild?
    ensures LineMatches(p0, p, s, outcome)
  {
    hide Pool.Dispatch, AfterDispatch, Tracks;
    var Batch(lines, eof) := p.phase;
    var job, i := lines[0].job, Assign(p.loop).i;
    var p' := p.(accepted := p.accepted + [job.seqNo], phase := Pool.Batch(lines[1..], eof));
    assert Tracks(p0, p', s) by { TracksIgnores(p0, p, p', s); }
    DispatchTracks(p0, p', s, i, job);
    Pool.DispatchOnly(p', i, job);
    assert p.loop == s.loop by { TracksIgnores(p0, p, p', s); }
  }

  lemma TracksIgnores(p0: Pool.Pool, p: Pool.Pool, q: Pool.Pool, s: LoopState)
    requires Tracks(p0, p, s) && q.loop == p.loop && q.stdout == p.stdout && q.children == p.children
    ensures Tracks(p0, q, s) && p.loop == s.loop
  {
  }

  lemma LineTracks(p0: Pool.Pool, p: Pool.Pool, s: LoopState, outcome: Outcome)
    requires Pool.Enabled(p, Pool.TakeLine) && !p.loop.leaderBusy && Tracks(p0, p, s)
    ensures LineMatches(p0, p, s, outcome)
  {
    if p.phase.lines[0].Render? && Assign(p.loop).ToChild? {
      RenderToChildTracks(p0, p, s, outcome);
    } else {
      hide Pool.Dispatch, AfterDispatch;
      assert LineMatches(p0, p, s, outcome);
    }
  }

  lemma LineRefinesSteps(p0: Pool.Pool, p: Pool.Pool, s: LoopState, outcome: Outcome)
    requires Pool.Enabled(p, Pool.TakeLine) && Pool.LoopInv(p) && Tracks(p0, p, s)
    ensures var q, t := StepLine(p, outcome), AfterLine(s, p.phase.lines[0], outcome);
      && Tracks(p0, q, t) && Pool.LoopInv(q)
      && q.phase == if p.phase.lines[0].Quit? then Pool.Children(0) else Pool.Batch(p.phase.lines[1..], p.phase.eof)
  {
    hide Pool.Apply, AfterLine, Tracks;
    LineTracks(p0, p, s, outcome);
    var q := Pool.Apply(p, Pool.TakeLine);
    Pool.LoopInvStep(p, Pool.TakeLine);
    if q.phase.Inline? {
      Pool.LoopInvStep(q, Pool.FinishInline(outcome));
    }
  }

  /** Running the leader alone over a batch of lines. */
  ghost function StepBatch(p: Pool.Pool, outcomes: seq<Outcome>): Pool.Pool
    requires p.phase.Batch? && |outcomes| >= |p.phase.lines| && |p.loop.busy| == |p.children| && Pool.LoopInv(p)
    decreases |outcomes|
  {
    if p.phase.lines == [] then p
    else
      var s := LoopState(p.loop, seq(|p.children|, _ => []), p.stdout);
      LineRefinesSteps(p, p, s, outcomes[0]);
      var q := StepLine(p, outcomes[0]);
      if q.phase.Batch? then StepBatch(q, outcomes[1..]) else q
  }

  /** What HandleStdin computes is what the leader's steps reach on the same batch. */
  lemma {:induction false} BatchRefinesSteps(p0: Pool.Pool, p: Pool.Pool, s: LoopState, outcomes: seq<Outcome>)
    requires p.phase.Batch? && |outcomes| >= |p.phase.lines| && Pool.LoopInv(p) && Tracks(p0, p, s)
    ensures Tracks(p0, StepBatch(p, outcomes), AfterLines(s, p.phase.lines, outcomes))
    decreases |outcomes|
  {
    if p.phase.lines != [] {
      LineRefinesSteps(p0, p, s, outcomes[0]);
      var q := StepLine(p, outcomes[0]);
      if q.phase.Batch? {
        BatchRefinesSteps(p0, q, AfterLine(s, p.phase.lines[0], outcomes[0]), outcomes[1..]);
      }
    }
  }

  /** Running the leader alone over the replies it has read from one child. */
  ghost function StepReplies(p: Pool.Pool): Pool.Pool
    requires p.phase.Replies? && p.phase.child < |p.children| == |p.loop.busy|
    decreases |p.phase.replies|
  {
    if p.phase.replies == [] then p else StepReplies(Pool.Apply(p, Pool.Forward))
  }

  /** What HandleChild computes is what the leader's steps reach on the same replies. */
  lemma {:induction false} RepliesRefineSteps(p0: Pool.Pool, p: Pool.Pool, s: LoopState)
    requires p.phase.Replies? && p.phase.child < |p.children| && Tracks(p0, p, s)
    ensures Tracks(p0, StepReplies(p), AfterReplies(s, p.phase.child, p.phase.replies))
    decreases |p.phase.replies|
  {
    if p.phase.replies != [] {
      RepliesRefineSteps(p0, Pool.Apply(p, Pool.Forward), AfterReply(s, p.phase.child, p.phase.replies[0]));
    }
  }
}
