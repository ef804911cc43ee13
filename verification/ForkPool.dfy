/**
 The fork-after-load pool as a step system: the leader's event loop, one socket pair per forked
 child, and the two pipes to the orchestrator. Children may run, answer and die at any moment.
 */
module ForkPool {
  import opened Basics
  import opened PoolProtocol

  /** A child with its socket pair: what the leader has written, what it works on, what it has answered. */
  datatype Child = Child(inbox: seq<Job>, work: Option<Job>, outbox: seq<Reply>, alive: bool)

  /** Where the leader is in its loop body. */
  datatype Phase =
    | Head
    | Batch(lines: seq<Line>, eof: bool)
    | Inline(job: Job, rest: seq<Line>, eof: bool)
    | Children(next: nat)
    | Replies(child: nat, replies: seq<Reply>, dead: bool)
    | Exited
    | Crashed

  datatype Execution = Execution(job: Job, outcome: Outcome)

  /**
   submitted, accepted, answered, lost and executed are histories: the render lines written to
   stdin, the sequence numbers the leader took off it, those it answered on stdout, those that
   died with a child, and the renders that ran.
   */
  datatype Pool = Pool(
    loop: Loop, phase: Phase, children: seq<Child>,
    stdin: seq<Line>, stdinClosed: bool, stdout: seq<Reply>,
    submitted: set<Job>, accepted: seq<int>, answered: seq<int>, lost: seq<int>, executed: set<Execution>)

  datatype Action =
    | Poll(n: nat, eof: bool)
    | TakeLine
    | FinishInline(outcome: Outcome)
    | EndBatch
    | DrainChild(n: nat, eof: bool)
    | Forward
    | EndReplies
    | EndIteration
    | Crash
    | ChildTake(i: nat)
    | ChildFinish(i: nat, outcome: Outcome)
    | ChildDie(i: nat)

  const FRESH_CHILD := Child([], None, [], true)

  /** After the load has been acknowledged: nothing sent, every child forked and idle. */
  function Start(children: nat): Pool {
    Pool(Loop(seq(children, _ => false), [], false, true, false), Head, seq(children, _ => FRESH_CHILD),
         [], false, [], {}, [], [], [], {})
  }

  /** dispatch_to_child: a line written to a dead child's socket is gone. */
  function Dispatch(p: Pool, i: nat, job: Job): Pool
    requires i < |p.loop.busy| == |p.children|
  {
    var c := p.children[i];
    var q := p.(loop := p.loop.(busy := p.loop.busy[i := true]));
    if c.alive then q.(children := p.children[i := c.(inbox := c.inbox + [job])])
    else q.(lost := p.lost + [job.seqNo])
  }

  ghost predicate Running(p: Pool) {
    !p.phase.Exited? && !p.phase.Crashed?
  }

  ghost predicate Enabled(p: Pool, a: Action) {
    && Running(p)
    && |p.loop.busy| == |p.children|
    && match a
       case Poll(n, eof) =>
         && p.phase.Head? && p.loop.GoesOn() && n <= |p.stdin|
         && (!p.loop.stdinOpen ==> n == 0 && !eof)
         && (eof ==> p.stdinClosed && n == |p.stdin|)
       case TakeLine => p.phase.Batch? && p.phase.lines != []
       case FinishInline(_) => p.phase.Inline?
       case EndBatch => p.phase.Batch? && p.phase.lines == []
       case DrainChild(n, eof) =>
         && p.phase.Children? && p.phase.next < |p.children|
         && n <= |p.children[p.phase.next].outbox|
         && (eof ==> !p.children[p.phase.next].alive && n == |p.children[p.phase.next].outbox|)
       case Forward => p.phase.Replies? && p.phase.replies != [] && p.phase.child < |p.children|
       case EndReplies => p.phase.Replies? && p.phase.replies == [] && p.phase.child < |p.children|
       case EndIteration => (p.phase.Children? && p.phase.next == |p.children|) || (p.phase.Head? && !p.loop.GoesOn())
       case Crash => true
       case ChildTake(i) => i < |p.children| && p.children[i].alive && p.children[i].work.None? && p.children[i].inbox != []
       case ChildFinish(i, _) => i < |p.children| && p.children[i].alive && p.children[i].work.Some?
       case ChildDie(i) => i < |p.children| && p.children[i].alive
  }

  /** One line of a batch read from stdin. */
  function ApplyLine(p: Pool, line: Line, rest: seq<Line>, eof: bool): Pool
    requires |p.loop.busy| == |p.children|
  {
    match line
    case Quit => p.(phase := Children(0), loop := p.loop.(quitting := true, stdinOpen := false))
    case Unknown(seqNo, cmd) => p.(phase := Batch(rest, eof), stdout := p.stdout + [UnknownReply(seqNo, cmd)])
    case Render(job) =>
      var q := p.(accepted := p.accepted + [job.seqNo]);
      match Assign(p.loop)
      case ToChild(i) => Dispatch(q.(phase := Batch(rest, eof)), i, job)
      case ToLeader => q.(phase := Inline(job, rest, eof), loop := p.loop.(leaderBusy := true))
      case Queued => q.(phase := Batch(rest, eof), loop := p.loop.(pending := p.loop.pending + [job]))
  }

  /** Forwards one reply of child i and hands the child the oldest queued job, if any. */
  function ApplyForward(p: Pool, i: nat, reply: Reply): Pool
    requires i < |p.loop.busy| == |p.children|
  {
    var q := p.(stdout := p.stdout + [reply], answered := p.answered + [reply.seqNo],
                loop := p.loop.(busy := p.loop.busy[i := false]));
    if q.loop.pending == [] then q
    else Dispatch(q.(loop := q.loop.(pending := q.loop.pending[1..])), i, q.loop.pending[0])
  }

  /** A finished render: its reply, and death of the child after an allocation failure. */
  function ApplyFinish(p: Pool, i: nat, job: Job, outcome: Outcome): Pool
    requires i < |p.children|
  {
    var c := p.children[i];
    var q := p.(executed := p.executed + {Execution(job, outcome)});
    var answered := c.(work := None, outbox := c.outbox + [Answer(job, outcome)]);
    if outcome.BadAlloc? && !BadArgs(job.req) then
      q.(children := p.children[i := answered.(inbox := [], alive := false)], lost := p.lost + SeqNos(c.inbox))
    else q.(children := p.children[i := answered])
  }

  ghost function Apply(p: Pool, a: Action): Pool
    requires Enabled(p, a)
  {
    match a
    case Poll(n, eof) => p.(phase := Batch(p.stdin[..n], eof), stdin := p.stdin[n..])
    case TakeLine => ApplyLine(p, p.phase.lines[0], p.phase.lines[1..], p.phase.eof)
    case FinishInline(outcome) =>
      var Inline(job, rest, eof) := p.phase;
      p.(phase := Batch(rest, eof), loop := p.loop.(leaderBusy := false),
         stdout := p.stdout + [Answer(job, outcome)], answered := p.answered + [job.seqNo],
         executed := p.executed + {Execution(job, outcome)})
    case EndBatch =>
      p.(phase := Children(0), loop := if p.phase.eof then p.loop.(stdinOpen := false) else p.loop)
    case DrainChild(n, eof) =>
      var i := p.phase.next;
      var c := p.children[i];
      p.(phase := Replies(i, c.outbox[..n], eof),
         children := p.children[i := c.(outbox := c.outbox[n..])])
    case Forward =>
      var Replies(i, replies, dead) := p.phase;
      ApplyForward(p.(phase := Replies(i, replies[1..], dead)), i, replies[0])
    case EndReplies =>
      var i := p.phase.child;
      p.(phase := Children(i + 1), loop := if p.phase.dead then p.loop.(busy := p.loop.busy[i := false]) else p.loop)
    case EndIteration =>
      p.(phase := if p.loop.Breaks() || !p.loop.GoesOn() then Exited else Head)
    case Crash => p.(phase := Crashed)
    case ChildTake(i) =>
      var c := p.children[i];
      p.(children := p.children[i := c.(inbox := c.inbox[1..], work := Some(c.inbox[0]))])
    case ChildFinish(i, outcome) => ApplyFinish(p, i, p.children[i].work.value, outcome)
    case ChildDie(i) =>
      var c := p.children[i];
      p.(children := p.children[i := Child([], None, c.outbox, false)],
         lost := p.lost + SeqNos(c.inbox + InWork(c.work)))
  }

  // ---------------------------------------------------------------- the loop's invariant

  function WorkSize(work: Option<Job>): nat {
    if work.Some? then 1 else 0
  }

  /** Replies of child i the leader has read but not yet forwarded. */
  function InHand(phase: Phase, i: nat): seq<Reply> {
    if phase.Replies? && phase.child == i then phase.replies else []
  }

  /** The commands given to child i that the leader has not seen answered. */
  function Load(p: Pool, i: nat): nat
    requires i < |p.children|
  {
    var c := p.children[i];
    |c.inbox| + WorkSize(c.work) + |c.outbox| + |InHand(p.phase, i)|
  }

  ghost predicate ChildInv(p: Pool, i: nat)
    requires i < |p.children| == |p.loop.busy|
  {
    var c := p.children[i];
    && Load(p, i) <= 1
    && (Load(p, i) == 1 ==> p.loop.busy[i])
    && (c.alive && p.loop.busy[i] ==> Load(p, i) == 1)
    && (!c.alive ==> c.inbox == [] && c.work.None?)
  }

  /**
   Until a crash: the leader is busy exactly inside its inline render, nothing is ever queued,
   and a live child is busy exactly when it has one unanswered command.
   */
  ghost predicate LoopInv(p: Pool) {
    p.phase.Crashed? ||
    (&& |p.children| == |p.loop.busy|
     && (p.loop.leaderBusy <==> p.phase.Inline?)
     && p.loop.pending == []
     && (forall i :: 0 <= i < |p.children| ==> ChildInv(p, i))
     && (p.phase.Children? ==> p.phase.next <= |p.children|)
     && (p.phase.Replies? ==> p.phase.child < |p.children|)
     && (p.phase.Replies? && p.phase.dead ==> !p.children[p.phase.child].alive && p.children[p.phase.child].outbox == [])
     && (p.loop.quitting ==> !p.loop.stdinOpen)
     && (!p.loop.stdinOpen ==> p.loop.quitting || p.stdinClosed)
     && (p.phase.Batch? && p.phase.eof ==> p.stdinClosed)
     && (p.phase.Inline? && p.phase.eof ==> p.stdinClosed)
     && (p.phase.Exited? ==> !p.loop.stdinOpen && p.loop.AllIdle()))
  }

  /** Nothing but child i and the leader's view of it changes. */
  ghost predicate OnlyChild(p: Pool, q: Pool, i: nat) {
    && |q.children| == |q.loop.busy| == |p.children| == |p.loop.busy|
    && i < |p.children|
    && (forall j :: 0 <= j < |p.children| && j != i ==>
          q.children[j] == p.children[j] && q.loop.busy[j] == p.loop.busy[j] && InHand(q.phase, j) == InHand(p.phase, j))
  }

  lemma ChildInvElsewhere(p: Pool, q: Pool, i: nat)
    requires OnlyChild(p, q, i)
    requires forall j :: 0 <= j < |p.children| ==> ChildInv(p, j)
    requires ChildInv(q, i)
    ensures forall j :: 0 <= j < |q.children| ==> ChildInv(q, j)
  {
    forall j | 0 <= j < |q.children| ensures ChildInv(q, j) {
      if j != i { assert ChildInv(p, j); }
    }
  }

  /** No step of the leader's that leaves the children alone breaks their part of the invariant. */
  lemma ChildInvKept(p: Pool, q: Pool)
    requires |q.children| == |q.loop.busy|
    requires q.children == p.children && q.loop.busy == p.loop.busy
    requires forall j :: 0 <= j < |p.children| ==> InHand(q.phase, j) == InHand(p.phase, j)
    requires forall j :: 0 <= j < |p.children| ==> ChildInv(p, j)
    ensures forall j :: 0 <= j < |q.children| ==> ChildInv(q, j)
  {
    forall j | 0 <= j < |q.children| ensures ChildInv(q, j) {
      assert ChildInv(p, j);
    }
  }

  lemma LoopInvTakeLine(p: Pool)
    requires LoopInv(p) && Enabled(p, TakeLine)
    ensures LoopInv(Apply(p, TakeLine))
  {
    var q := Apply(p, TakeLine);
    var line := p.phase.lines[0];
    if line.Render? && Assign(p.loop).ToChild? {
      var i := Assign(p.loop).i;
      assert ChildInv(p, i);
      ChildInvElsewhere(p, q, i);
    } else {
      ChildInvKept(p, q);
    }
  }

  lemma LoopInvReplies(p: Pool, a: Action)
    requires LoopInv(p) && Enabled(p, a)
    requires a.DrainChild? || a.Forward? || a.EndReplies?
    ensures LoopInv(Apply(p, a))
  {
    var q := Apply(p, a);
    var i := if a.DrainChild? then p.phase.next else p.phase.child;
    assert ChildInv(p, i);
    ChildInvElsewhere(p, q, i);
  }

  lemma LoopInvChild(p: Pool, a: Action)
    requires LoopInv(p) && Enabled(p, a)
    requires a.ChildTake? || a.ChildFinish? || a.ChildDie?
    ensures LoopInv(Apply(p, a))
  {
    assert ChildInv(p, a.i);
    ChildInvElsewhere(p, Apply(p, a), a.i);
  }

  /** Every step keeps the loop invariant. */
  lemma LoopInvStep(p: Pool, a: Action)
    requires LoopInv(p) && Enabled(p, a)
    ensures LoopInv(Apply(p, a))
  {
    match a
    case TakeLine => LoopInvTakeLine(p);
    case DrainChild(_, _) => LoopInvReplies(p, a);
    case Forward => LoopInvReplies(p, a);
    case EndReplies => LoopInvReplies(p, a);
    case ChildTake(_) => LoopInvChild(p, a);
    case ChildFinish(_, _) => LoopInvChild(p, a);
    case ChildDie(_) => LoopInvChild(p, a);
    case Poll(_, _) => ChildInvKept(p, Apply(p, a));
    case FinishInline(_) => ChildInvKept(p, Apply(p, a));
    case EndBatch => ChildInvKept(p, Apply(p, a));
    case EndIteration => ChildInvKept(p, Apply(p, a));
    case Crash =>
  }

  function SeqNos(jobs: seq<Job>): seq<int> {
    seq(|jobs|, i requires 0 <= i < |jobs| => jobs[i].seqNo)
  }

  function InWork(work: Option<Job>): seq<Job> {
    if work.Some? then [work.value] else []
  }

  // ---------------------------------------------------------------- conservation of commands

  /** How often sequence number s occurs. */
  function Times(nos: seq<int>, s: int): nat {
    multiset(nos)[s]
  }

  function JobTimes(jobs: seq<Job>, s: int): nat {
    if jobs == [] then 0 else JobTimes(jobs[1..], s) + (if jobs[0].seqNo == s then 1 else 0)
  }

  function ReplyTimes(replies: seq<Reply>, s: int): nat {
    if replies == [] then 0 else ReplyTimes(replies[1..], s) + (if replies[0].seqNo == s then 1 else 0)
  }

  /** Commands s a child holds, answered or not, whose answer the leader has not read. */
  function Held(c: Child, s: int): nat {
    JobTimes(c.inbox, s) + JobTimes(InWork(c.work), s) + ReplyTimes(c.outbox, s)
  }

  function HeldByAll(children: seq<Child>, s: int): nat {
    if children == [] then 0
    else HeldByAll(children[..|children| - 1], s) + Held(children[|children| - 1], s)
  }

  function InLeader(phase: Phase, s: int): nat {
    match phase
    case Inline(job, _, _) => if job.seqNo == s then 1 else 0
    case Replies(_, replies, _) => ReplyTimes(replies, s)
    case _ => 0
  }

  /** Every accepted command is in exactly one place: answered, lost, with a child, or in the leader's hands. */
  ghost predicate Conserved(p: Pool, s: int) {
    p.phase.Crashed? ||
    Times(p.accepted, s) == Times(p.answered, s) + Times(p.lost, s) + HeldByAll(p.children, s) + InLeader(p.phase, s)
  }

  lemma TimesAppend(nos: seq<int>, no: int, s: int)
    ensures Times(nos + [no], s) == Times(nos, s) + (if no == s then 1 else 0)
  {
  }

  lemma {:induction false} JobTimesSplit(a: seq<Job>, b: seq<Job>, s: int)
    ensures JobTimes(a + b, s) == JobTimes(a, s) + JobTimes(b, s)
  {
    if a == [] {
      assert a + b == b;
    } else {
      JobTimesSplit(a[1..], b, s);
      assert (a + b)[1..] == a[1..] + b;
    }
  }

  lemma {:induction false} ReplyTimesSplit(a: seq<Reply>, b: seq<Reply>, s: int)
    ensures ReplyTimes(a + b, s) == ReplyTimes(a, s) + ReplyTimes(b, s)
  {
    if a == [] {
      assert a + b == b;
    } else {
      ReplyTimesSplit(a[1..], b, s);
      assert (a + b)[1..] == a[1..] + b;
    }
  }

  lemma {:induction false} SeqNosTimes(jobs: seq<Job>, s: int)
    ensures Times(SeqNos(jobs), s) == JobTimes(jobs, s)
  {
    if jobs != [] {
      SeqNosTimes(jobs[1..], s);
      assert SeqNos(jobs) == [jobs[0].seqNo] + SeqNos(jobs[1..]);
    }
  }

  /** Replacing child i changes what the children hold by what that child's holding changed. */
  lemma {:induction false} HeldUpdate(children: seq<Child>, i: nat, c: Child, s: int)
    requires i < |children|
    ensures HeldByAll(children[i := c], s) == HeldByAll(children, s) - Held(children[i], s) + Held(c, s)
  {
    hide Held;
    var n := |children|;
    var updated, front := children[i := c], children[..n - 1];
    if i == n - 1 {
      assert updated[..n - 1] == front;
    } else {
      HeldUpdate(front, i, c, s);
      assert updated[..n - 1] == front[i := c];
    }
  }

  lemma DispatchHolds(p: Pool, i: nat, job: Job, s: int)
    requires i < |p.loop.busy| == |p.children|
    ensures var q := Dispatch(p, i, job);
      HeldByAll(q.children, s) + Times(q.lost, s)
      == HeldByAll(p.children, s) + Times(p.lost, s) + JobTimes([job], s)
  {
    var c := p.children[i];
    if c.alive {
      JobTimesSplit(c.inbox, [job], s);
      HeldUpdate(p.children, i, c.(inbox := c.inbox + [job]), s);
    }
  }

  lemma ConservedTakeLine(p: Pool, s: int)
    requires LoopInv(p) && Conserved(p, s) && Enabled(p, TakeLine)
    ensures Conserved(Apply(p, TakeLine), s)
  {
    hide HeldByAll, Times, Dispatch;
    var Batch(lines, eof) := p.phase;
    match lines[0]
    case Quit =>
    case Unknown(_, _) =>
    case Render(job) =>
      TimesAppend(p.accepted, job.seqNo, s);
      var p' := p.(accepted := p.accepted + [job.seqNo], phase := Batch(lines[1..], eof));
      if Assign(p.loop).ToChild? {
        DispatchHolds(p', Assign(p.loop).i, job, s);
        DispatchOnly(p', Assign(p.loop).i, job);
        assert JobTimes([job], s) == if job.seqNo == s then 1 else 0;
      }
  }

  lemma DispatchOnly(p: Pool, i: nat, job: Job)
    requires i < |p.loop.busy| == |p.children|
    ensures var q := Dispatch(p, i, job);
      && q.phase == p.phase && q.accepted == p.accepted && q.answered == p.answered
      && q.stdin == p.stdin && q.submitted == p.submitted
  {
  }

  lemma ConservedReplies(p: Pool, a: Action, s: int)
    requires LoopInv(p) && Conserved(p, s) && Enabled(p, a)
    requires a.DrainChild? || a.Forward?
    ensures Conserved(Apply(p, a), s)
  {
    hide HeldByAll;
    if a.DrainChild? {
      var i := p.phase.next;
      var c := p.children[i];
      assert c.outbox[..a.n] + c.outbox[a.n..] == c.outbox;
      ReplyTimesSplit(c.outbox[..a.n], c.outbox[a.n..], s);
      HeldUpdate(p.children, i, c.(outbox := c.outbox[a.n..]), s);
    }
  }

  lemma ConservedTakeOrDie(p: Pool, a: Action, s: int)
    requires LoopInv(p) && Conserved(p, s) && Enabled(p, a)
    requires a.ChildTake? || a.ChildDie?
    ensures Conserved(Apply(p, a), s)
  {
    hide HeldByAll;
    var c := p.children[a.i];
    HeldUpdate(p.children, a.i, Apply(p, a).children[a.i], s);
    if a.ChildDie? {
      SeqNosTimes(c.inbox + InWork(c.work), s);
      JobTimesSplit(c.inbox, InWork(c.work), s);
    } else {
      assert JobTimes([c.inbox[0]], s) == if c.inbox[0].seqNo == s then 1 else 0;
      assert InWork(Some(c.inbox[0])) == [c.inbox[0]];
    }
  }

  lemma ConservedFinish(p: Pool, i: nat, outcome: Outcome, s: int)
    requires LoopInv(p) && Conserved(p, s) && Enabled(p, ChildFinish(i, outcome))
    ensures Conserved(Apply(p, ChildFinish(i, outcome)), s)
  {
    hide HeldByAll, ChildInv, LoopInv;
    var c, q := p.children[i], Apply(p, ChildFinish(i, outcome));
    var job := c.work.value;
    HeldUpdate(p.children, i, q.children[i], s);
    SeqNosTimes(c.inbox, s);
    ReplyTimesSplit(c.outbox, [Answer(job, outcome)], s);
    assert ReplyTimes([Answer(job, outcome)], s) == JobTimes([job], s);
    assert Held(q.children[i], s) + Times(q.lost, s) == Held(c, s) + Times(p.lost, s);
  }

  /** Every step conserves every command. */
  lemma ConservedStep(p: Pool, a: Action, s: int)
    requires LoopInv(p) && Conserved(p, s) && Enabled(p, a)
    ensures Conserved(Apply(p, a), s)
  {
    hide HeldByAll;
    match a
    case TakeLine => ConservedTakeLine(p, s);
    case DrainChild(_, _) => ConservedReplies(p, a, s);
    case Forward => ConservedReplies(p, a, s);
    case ChildTake(_) => ConservedTakeOrDie(p, a, s);
    case ChildFinish(i, outcome) => ConservedFinish(p, i, outcome, s);
    case ChildDie(_) => ConservedTakeOrDie(p, a, s);
    case _ =>
  }

  /** Commands are lost only with a child. */
  ghost predicate LostWithChild(p: Pool) {
    p.lost != [] ==> exists c <- p.children :: !c.alive
  }

  lemma LostWithChildStep(p: Pool, a: Action)
    requires LostWithChild(p) && Enabled(p, a)
    ensures LostWithChild(Apply(p, a))
  {
    var q := Apply(p, a);
    DeadStaysDead(p, a);
    if q.lost != p.lost {
      var i := if a.ChildDie? || a.ChildFinish? then a.i else if a.Forward? then p.phase.child else Assign(p.loop).i;
      assert !q.children[i].alive;
    }
  }

  lemma DeadStaysDead(p: Pool, a: Action)
    requires Enabled(p, a)
    ensures (exists c <- p.children :: !c.alive) ==> exists c <- Apply(p, a).children :: !c.alive
  {
    var q := Apply(p, a);
    forall i | 0 <= i < |p.children| && !p.children[i].alive
      ensures i < |q.children| && !q.children[i].alive
    {
    }
    if exists c <- p.children :: !c.alive {
      var c :| c in p.children && !c.alive;
      var i :| 0 <= i < |p.children| && p.children[i] == c;
      assert q.children[i] in q.children;
    }
  }

  /**
   A step loses a command exactly when it sends one to a child that has died, or a child dies
   holding one it has not answered. An answered allocation failure by itself loses nothing.
   */
  lemma LossIsExact(p: Pool, a: Action)
    requires LoopInv(p) && Enabled(p, a)
    ensures Apply(p, a).lost != p.lost <==>
      || (a.TakeLine? && p.phase.lines[0].Render? && Assign(p.loop).ToChild? && !p.children[Assign(p.loop).i].alive)
      || (a.ChildDie? && (p.children[a.i].inbox != [] || p.children[a.i].work.Some?))
  {
    if a.ChildFinish? || a.ChildDie? {
      assert ChildInv(p, a.i);
    }
  }

  // ---------------------------------------------------------------- what is answered is put on stdout

  function Numbers(replies: seq<Reply>): seq<int> {
    seq(|replies|, i requires 0 <= i < |replies| => replies[i].seqNo)
  }

  /** The replies that a step writes to stdout. */
  ghost function Written(p: Pool, a: Action): seq<Reply>
    requires Enabled(p, a)
  {
    match a
    case FinishInline(outcome) => [Answer(p.phase.job, outcome)]
    case Forward => [p.phase.replies[0]]
    case TakeLine => if p.phase.lines[0].Unknown? then [UnknownReply(p.phase.lines[0].seqNo, p.phase.lines[0].cmd)] else []
    case _ => []
  }

  /** A command counts as answered when its reply is put on stdout, and not otherwise. */
  lemma AnswersAreWritten(p: Pool, a: Action)
    requires Enabled(p, a)
    ensures Apply(p, a).stdout == p.stdout + Written(p, a)
    ensures !(a.TakeLine? && p.phase.lines[0].Unknown?) ==> Apply(p, a).answered == p.answered + Numbers(Written(p, a))
  {
    hide FirstIdle;
    if a.TakeLine? {
      WrittenByLine(p);
    }
  }

  lemma WrittenByLine(p: Pool)
    requires Enabled(p, TakeLine)
    ensures Apply(p, TakeLine).stdout == p.stdout + Written(p, TakeLine) && Apply(p, TakeLine).answered == p.answered
  {
    hide FirstIdle;
  }

  lemma NumbersJoin(a: seq<Reply>, b: seq<Reply>)
    ensures Numbers(a + b) == Numbers(a) + Numbers(b)
  {
  }

  lemma {:induction false} NumbersTimes(replies: seq<Reply>, s: int)
    ensures Times(Numbers(replies), s) == ReplyTimes(replies, s)
  {
    if replies != [] {
      NumbersTimes(replies[1..], s);
      assert Numbers(replies) == [replies[0].seqNo] + Numbers(replies[1..]);
    }
  }

  // ---------------------------------------------------------------- every line once, every reply genuine

  function LineTimes(lines: seq<Line>, s: int): nat {
    if lines == [] then 0
    else LineTimes(lines[1..], s) + (if lines[0].Render? && lines[0].job.seqNo == s then 1 else 0)
  }

  function PhaseLines(phase: Phase): seq<Line> {
    match phase
    case Batch(lines, _) => lines
    case Inline(_, rest, _) => rest
    case _ => []
  }

  /** How often command s was written and not dropped unread after a quit. */
  function Seen(p: Pool, s: int): nat {
    LineTimes(p.stdin, s) + LineTimes(PhaseLines(p.phase), s) + Times(p.accepted, s)
  }

  lemma {:induction false} LineTimesSplit(a: seq<Line>, b: seq<Line>, s: int)
    ensures LineTimes(a + b, s) == LineTimes(a, s) + LineTimes(b, s)
  {
    if a == [] {
      assert a + b == b;
    } else {
      LineTimesSplit(a[1..], b, s);
      assert (a + b)[1..] == a[1..] + b;
    }
  }

  /** Only a quit or a crash drops commands that were written. */
  predicate Drops(p: Pool, a: Action) {
    a.Crash? || (a.TakeLine? && p.phase.Batch? && p.phase.lines != [] && p.phase.lines[0].Quit?)
  }

  /** No step of the pool duplicates a command, and none drops one unread but a quit or a crash. */
  lemma SeenStep(p: Pool, a: Action, s: int)
    requires Enabled(p, a)
    ensures Seen(Apply(p, a), s) <= Seen(p, s)
    ensures !Drops(p, a) ==> Seen(Apply(p, a), s) == Seen(p, s)
    ensures Apply(p, a).submitted == p.submitted
  {
    if a.Poll? {
      LineTimesSplit(p.stdin[..a.n], p.stdin[a.n..], s);
      assert p.stdin[..a.n] + p.stdin[a.n..] == p.stdin;
    } else if a.TakeLine? {
      SeenLine(p, p.phase.lines, p.phase.eof, s);
    } else {
      assert Apply(p, a).stdin == p.stdin && Apply(p, a).accepted == p.accepted;
    }
  }

  lemma SeenLine(p: Pool, lines: seq<Line>, eof: bool, s: int)
    requires p.phase == Batch(lines, eof) && lines != [] && |p.loop.busy| == |p.children|
    ensures Seen(ApplyLine(p, lines[0], lines[1..], eof), s) <= Seen(p, s)
    ensures !lines[0].Quit? ==> Seen(ApplyLine(p, lines[0], lines[1..], eof), s) == Seen(p, s)
    ensures ApplyLine(p, lines[0], lines[1..], eof).submitted == p.submitted
  {
    hide HeldByAll, Times, Dispatch;
    match lines[0]
    case Quit =>
    case Unknown(_, _) =>
    case Render(job) =>
      TimesAppend(p.accepted, job.seqNo, s);
      if Assign(p.loop).ToChild? {
        DispatchOnly(p.(accepted := p.accepted + [job.seqNo], phase := Batch(lines[1..], eof)), Assign(p.loop).i, job);
      }
  }

  ghost predicate LineKnown(p: Pool, line: Line) {
    !line.Unknown? && (line.Render? ==> line.job in p.submitted)
  }

  /** The reply is the answer to a submitted job that has been executed with that outcome. */
  ghost predicate Genuine(p: Pool, reply: Reply) {
    exists e <- p.executed :: e.job in p.submitted && reply == Answer(e.job, e.outcome)
  }

  ghost predicate ChildGenuine(p: Pool, c: Child) {
    && (forall job <- c.inbox :: job in p.submitted)
    && (c.work.Some? ==> c.work.value in p.submitted)
    && (forall r <- c.outbox :: Genuine(p, r))
  }

  ghost predicate PhaseGenuine(p: Pool, phase: Phase) {
    && (phase.Inline? ==> phase.job in p.submitted)
    && (phase.Replies? ==> forall r <- phase.replies :: Genuine(p, r))
  }

  /** The leader and the children only ever handle submitted jobs and their answers. */
  ghost predicate Provenance(p: Pool) {
    && (forall line <- p.stdin :: LineKnown(p, line))
    && (forall line <- PhaseLines(p.phase) :: LineKnown(p, line))
    && (forall job <- p.loop.pending :: job in p.submitted)
    && (forall c <- p.children :: ChildGenuine(p, c))
    && PhaseGenuine(p, p.phase)
    && (forall r <- p.stdout :: Genuine(p, r))
    && (forall e <- p.executed :: e.job in p.submitted)
  }

  /** Genuine replies stay genuine. */
  lemma GenuineStays(p: Pool, q: Pool)
    requires p.submitted <= q.submitted && p.executed <= q.executed
    ensures forall r :: Genuine(p, r) ==> Genuine(q, r)
  {
  }

  lemma ProvenanceChild(p: Pool, a: Action)
    requires Provenance(p) && Enabled(p, a)
    requires a.ChildTake? || a.ChildFinish? || a.ChildDie?
    ensures Provenance(Apply(p, a))
  {
    var q := Apply(p, a);
    var c := p.children[a.i];
    assert ChildGenuine(p, c);
    GenuineStays(p, q);
    if a.ChildFinish? {
      assert Execution(c.work.value, a.outcome) in q.executed;
      assert Genuine(q, Answer(c.work.value, a.outcome));
    }
    forall d | d in q.children ensures ChildGenuine(q, d) {
      if d != q.children[a.i] {
        assert d in p.children;
        assert ChildGenuine(p, d);
      }
    }
  }

  lemma ProvenanceDispatch(p: Pool, i: nat, job: Job)
    requires Provenance(p) && i < |p.loop.busy| == |p.children| && job in p.submitted
    ensures Provenance(Dispatch(p, i, job))
  {
    var q := Dispatch(p, i, job);
    GenuineStays(p, q);
    assert ChildGenuine(p, p.children[i]);
    forall d | d in q.children ensures ChildGenuine(q, d) {
      if d in p.children { assert ChildGenuine(p, d); }
    }
  }

  /** A change that touches only the leader's bookkeeping keeps the provenance of the rest. */
  lemma ProvenanceKept(p: Pool, q: Pool)
    requires Provenance(p)
    requires q.submitted == p.submitted && q.executed == p.executed && q.children == p.children
    requires forall line <- q.stdin :: line in p.stdin
    requires forall line <- PhaseLines(q.phase) :: line in p.stdin || line in PhaseLines(p.phase)
    requires forall job <- q.loop.pending :: job in p.loop.pending || job in p.submitted
    requires PhaseGenuine(p, q.phase)
    requires forall r <- q.stdout :: r in p.stdout || Genuine(p, r)
    ensures Provenance(q)
  {
  }

  lemma ProvenanceTakeLine(p: Pool)
    requires Provenance(p) && Enabled(p, TakeLine)
    ensures Provenance(Apply(p, TakeLine))
  {
    var line, rest := p.phase.lines[0], p.phase.lines[1..];
    assert LineKnown(p, line);
    if line.Render? && Assign(p.loop).ToChild? {
      var q := p.(accepted := p.accepted + [line.job.seqNo], phase := Batch(rest, p.phase.eof));
      ProvenanceKept(p, q);
      ProvenanceDispatch(q, Assign(p.loop).i, line.job);
    } else {
      ProvenanceKept(p, Apply(p, TakeLine));
    }
  }

  lemma ProvenanceReplies(p: Pool, a: Action)
    requires Provenance(p) && Enabled(p, a)
    requires a.DrainChild? || a.Forward?
    ensures Provenance(Apply(p, a))
  {
    if a.DrainChild? {
      var i, q := p.phase.next, Apply(p, a);
      GenuineStays(p, q);
      assert ChildGenuine(p, p.children[i]);
      forall d | d in q.children ensures ChildGenuine(q, d) {
        if d != q.children[i] {
          assert d in p.children;
          assert ChildGenuine(p, d);
        }
      }
    } else {
      var Replies(i, replies, dead) := p.phase;
      var q := p.(phase := Replies(i, replies[1..], dead), stdout := p.stdout + [replies[0]],
                  answered := p.answered + [replies[0].seqNo], loop := p.loop.(busy := p.loop.busy[i := false]));
      ProvenanceKept(p, q);
      if q.loop.pending != [] {
        var q' := q.(loop := q.loop.(pending := q.loop.pending[1..]));
        ProvenanceKept(q, q');
        ProvenanceDispatch(q', i, q.loop.pending[0]);
      }
    }
  }

  /** Every step keeps provenance. */
  lemma ProvenanceStep(p: Pool, a: Action)
    requires Provenance(p) && Enabled(p, a)
    ensures Provenance(Apply(p, a))
    ensures p.executed <= Apply(p, a).executed
  {
    var q := Apply(p, a);
    match a
    case TakeLine => ProvenanceTakeLine(p);
    case DrainChild(_, _) => ProvenanceReplies(p, a);
    case Forward => ProvenanceReplies(p, a);
    case ChildTake(_) => ProvenanceChild(p, a);
    case ChildFinish(_, _) => ProvenanceChild(p, a);
    case ChildDie(_) => ProvenanceChild(p, a);
    case FinishInline(outcome) =>
      var job := p.phase.job;
      var p' := p.(executed := q.executed);
      GenuineStays(p, p');
      forall c | c in p'.children ensures ChildGenuine(p', c) {
        assert ChildGenuine(p, c);
      }
      assert Provenance(p');
      assert Execution(job, outcome) in p'.executed;
      assert Genuine(p', Answer(job, outcome));
      ProvenanceKept(p', q);
    case Poll(_, _) => ProvenanceKept(p, q);
    case EndBatch => ProvenanceKept(p, q);
    case EndReplies => ProvenanceKept(p, q);
    case EndIteration => ProvenanceKept(p, q);
    case Crash => ProvenanceKept(p, q);
  }
}
