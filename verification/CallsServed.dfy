/**
 What becomes of the calls: a reply that has been read is with its caller, and from every state in
 which the leader runs all calls can still return, each with the reply to its own command.
 */
module CallsServed {
  import opened PoolProtocol
  import opened ForkProtocol
  import Pool = ForkPool
  import Demux = ReplyDemux
  import Drains = PoolDrains

  /** A reply numbered so has been taken off the pipe. */
  ghost predicate WasRead(s: System, no: int) {
    exists r <- s.read :: r.seqNo == no
  }

  /** In the channel, and from the worker. */
  ghost predicate HasReply(c: Demux.Call) {
    |c.channel| == 1 && c.channel[0].FromWorker?
  }

  ghost predicate Waits(c: Demux.Call) {
    c.stage.Registered? || c.stage.Awaiting?
  }

  /** A waiting call is registered until its reply is read; then the reader holds it, or it is in the channel. */
  ghost predicate CallServed(s: System, id: nat)
    requires id in s.demux.calls
  {
    var c := s.demux.calls[id];
    && (c.stage.Awaiting? ==> JobOf(c) in s.pool.submitted)
    && (Waits(c) && !WasRead(s, c.seqNo) && !s.demux.reader.Stopped? ==> c.seqNo in s.demux.pending)
    && (Waits(c) && WasRead(s, c.seqNo) ==> (s.demux.reader.Holding? && s.demux.reader.id == id) || HasReply(c))
  }

  ghost predicate Served(s: System) {
    && (forall id <- s.demux.calls.Keys :: CallServed(s, id))
    && (forall r <- s.read :: Pool.Genuine(s.pool, r))
    && (s.demux.reader.Stopped? ==> !Pool.Running(s.pool) && s.pool.stdout == [])
  }

  lemma StartServed(children: nat)
    ensures Served(Initial(children))
  {
  }

  /** A reply that was read answers a command that was written. */
  lemma ReadWasWritten(s: System, no: int) returns (id: nat)
    requires SystemInv(s) && Served(s) && WasRead(s, no)
    ensures id in s.demux.calls && s.demux.calls[id].seqNo == no
    ensures !s.demux.calls[id].stage.Numbered? && !s.demux.calls[id].stage.Registered?
  {
    var r :| r in s.read && r.seqNo == no;
    assert Pool.Genuine(s.pool, r);
    var e :| e in s.pool.executed && e.job in s.pool.submitted && r == Answer(e.job, e.outcome);
    id :| WrittenBy(s.demux, e.job, id);
  }

  /** The reply at the head of the pipe is the first with its number. */
  lemma HeadIsNew(s: System)
    requires SystemInv(s) && s.pool.stdout != []
    ensures !WasRead(s, s.pool.stdout[0].seqNo)
  {
    hide PoolInv, SubmittedByCalls, DemuxGenuine;
    var no := s.pool.stdout[0].seqNo;
    if WasRead(s, no) {
      var r :| r in s.read && r.seqNo == no;
      var i :| 0 <= i < |s.read| && s.read[i] == r;
      assert (s.read + s.pool.stdout)[i] == r && (s.read + s.pool.stdout)[|s.read|] == s.pool.stdout[0];
      AtMostOneReply(s, i, |s.read|);
    }
  }

  lemma AtMostOneReply(s: System, i: nat, j: nat)
    requires SystemInv(s) && i < j < |s.read + s.pool.stdout|
    ensures (s.read + s.pool.stdout)[i].seqNo != (s.read + s.pool.stdout)[j].seqNo
  {
    var nos, no := s.pool.answered, (s.read + s.pool.stdout)[i].seqNo;
    assert AnsweredOnce(s.pool) && nos == Pool.Numbers(s.read + s.pool.stdout);
    hide PoolInv, SubmittedByCalls, DemuxGenuine;
    if nos[i] == nos[j] {
      TwiceIn(nos, i, j);
    }
  }

  lemma TwiceIn(nos: seq<int>, i: nat, j: nat)
    requires i < j < |nos| && nos[i] == nos[j]
    ensures Pool.Times(nos, nos[i]) >= 2
  {
    assert nos == nos[..j] + nos[j..];
    assert nos[..j][i] == nos[i] && nos[j..][0] == nos[i];
    assert nos[i] in multiset(nos[..j]) && nos[i] in multiset(nos[j..]);
  }

  // ---------------------------------------------------------------- every step keeps it

  lemma PoolKeepsServed(s: System, q: Pool.Pool)
    requires Served(s) && s.pool.submitted <= q.submitted && s.pool.executed <= q.executed
    requires s.demux.reader.Stopped? ==> !Pool.Running(q) && q.stdout == []
    ensures Served(s.(pool := q))
  {
    Pool.GenuineStays(s.pool, q);
    forall id | id in s.demux.calls ensures CallServed(s.(pool := q), id) {
      assert CallServed(s, id);
    }
  }

  lemma StartKeepsServed(s: System, id: nat, req: Request)
    requires Served(s) && Enabled(s, Go(Demux.Start(id, req)))
    ensures Served(Apply(s, Go(Demux.Start(id, req))))
  {
    var t := Apply(s, Go(Demux.Start(id, req)));
    forall j | j in t.demux.calls ensures CallServed(t, j) {
      if j != id { assert CallServed(s, j); }
    }
  }

  lemma RegisterKeepsServed(s: System, id: nat)
    requires SystemInv(s) && Served(s) && Enabled(s, Go(Demux.Register(id)))
    ensures Served(Apply(s, Go(Demux.Register(id))))
  {
    var t := Apply(s, Go(Demux.Register(id)));
    var no := s.demux.calls[id].seqNo;
    if WasRead(s, no) {
      var other := ReadWasWritten(s, no);
    }
    forall j | j in t.demux.calls ensures CallServed(t, j) {
      assert CallServed(s, j);
    }
  }

  lemma WriteKeepsServed(s: System, id: nat)
    requires SystemInv(s) && Served(s) && Enabled(s, Go(Demux.Write(id)))
    ensures Served(Apply(s, Go(Demux.Write(id))))
  {
    var t := Apply(s, Go(Demux.Write(id)));
    Pool.GenuineStays(s.pool, t.pool);
    forall j | j in t.demux.calls ensures CallServed(t, j) {
      assert CallServed(s, j);
    }
  }

  /** A caller that stops waiting: it has received, or given up, or failed to write, or it leaves. */
  lemma LeavingKeepsServed(s: System, go: Demux.Action)
    requires SystemInv(s) && Served(s) && Enabled(s, Go(go))
    requires go.FailWrite? || go.Receive? || go.Timeout? || go.Unregister?
    ensures Served(Apply(s, Go(go)))
  {
    hide PoolInv, SubmittedByCalls, DemuxGenuine, AnsweredOnPipe;
    var t := Apply(s, Go(go));
    forall j | j in t.demux.calls ensures CallServed(t, j) {
      assert CallServed(s, j);
    }
  }

  lemma ReadKeepsServed(s: System, reply: Reply)
    requires SystemInv(s) && Served(s) && Enabled(s, Go(Demux.ReadReply(reply)))
    ensures Served(Apply(s, Go(Demux.ReadReply(reply))))
  {
    var t := Apply(s, Go(Demux.ReadReply(reply)));
    HeadIsNew(s);
    assert Pool.Genuine(s.pool, reply);
    Pool.GenuineStays(s.pool, t.pool);
    hide PoolInv, SubmittedByCalls, DemuxGenuine, AnsweredOnPipe, Pool.Genuine;
    forall no ensures WasRead(t, no) <==> WasRead(s, no) || no == reply.seqNo {
      ReadOneMore(s, t, reply, no);
    }
    forall j | j in t.demux.calls ensures CallServed(t, j) {
      assert CallServed(s, j) && Demux.CallInv(s.demux, j);
    }
  }

  lemma ReadOneMore(s: System, t: System, reply: Reply, no: int)
    requires t.read == s.read + [reply]
    ensures WasRead(t, no) <==> WasRead(s, no) || no == reply.seqNo
  {
    if WasRead(s, no) {
      var r :| r in s.read && r.seqNo == no;
      assert r in t.read;
    }
    assert reply in t.read;
  }

  lemma SendKeepsServed(s: System)
    requires SystemInv(s) && Served(s) && Enabled(s, Go(Demux.SendHeld))
    ensures Served(Apply(s, Go(Demux.SendHeld)))
  {
    hide PoolInv, SubmittedByCalls, DemuxGenuine, AnsweredOnPipe;
    var t := Apply(s, Go(Demux.SendHeld));
    forall j | j in t.demux.calls ensures CallServed(t, j) {
      assert CallServed(s, j) && Demux.CallInv(s.demux, j);
    }
  }

  lemma EndKeepsServed(s: System)
    requires SystemInv(s) && Served(s) && Enabled(s, Go(Demux.ReadEnd))
    ensures Served(Apply(s, Go(Demux.ReadEnd)))
  {
    hide PoolInv, SubmittedByCalls, DemuxGenuine, AnsweredOnPipe;
    var t := Apply(s, Go(Demux.ReadEnd));
    Demux.EndReachesEveryWaiter(s.demux);
    forall j | j in t.demux.calls ensures CallServed(t, j) {
      assert CallServed(s, j) && Demux.CallInv(s.demux, j);
    }
  }

  lemma ServedStep(s: System, a: Action)
    requires SystemInv(s) && Served(s) && Enabled(s, a)
    ensures Served(Apply(s, a))
  {
    hide SystemInv, Served, Pool.Apply, Demux.Apply;
    match a
    case Go(go) =>
      match go {
        case Start(id, req) => StartKeepsServed(s, id, req);
        case Register(id) => RegisterKeepsServed(s, id);
        case Write(id) => WriteKeepsServed(s, id);
        case FailWrite(_) => LeavingKeepsServed(s, go);
        case Receive(_) => LeavingKeepsServed(s, go);
        case Timeout(_) => LeavingKeepsServed(s, go);
        case Unregister(_) => LeavingKeepsServed(s, go);
        case ReadReply(reply) => ReadKeepsServed(s, reply);
        case SendHeld => SendKeepsServed(s);
        case ReadEnd => EndKeepsServed(s);
      }
    case InPool(step) => PoolStepKeepsServed(s, step);
    case SendQuit => PipeKeepsServed(s, a);
    case CloseStdin => PipeKeepsServed(s, a);
  }

  lemma PoolStepKeepsServed(s: System, step: Pool.Action)
    requires SystemInv(s) && Served(s) && Enabled(s, InPool(step))
    ensures Served(Apply(s, InPool(step)))
  {
    hide Pool.Apply, PoolInv, CallServed, Demux.DemuxInv;
    assert PoolInv(s.pool);
    PoolInvStep(s.pool, step);
    PoolKeepsServed(s, Pool.Apply(s.pool, step));
  }

  lemma PipeKeepsServed(s: System, a: Action)
    requires Served(s) && (a.SendQuit? || a.CloseStdin?)
    ensures Served(Apply(s, a))
  {
    PoolKeepsServed(s, Apply(s, a).pool);
  }

  lemma {:induction false} ServedOnRuns(a: System, steps: seq<Action>, b: System)
    requires SystemInv(a) && Served(a) && Run(a, steps, b)
    ensures SystemInv(b) && Served(b)
    decreases |steps|
  {
    hide SystemInv, Served, Enabled, Apply;
    if steps != [] {
      SystemInvStep(a, steps[0]);
      ServedStep(a, steps[0]);
      ServedOnRuns(Apply(a, steps[0]), steps[1..], b);
    }
  }

  /**
   In every run, once the reply to a call that still waits has been read off the pipe, it is in the
   call's channel, or in the reader's hands, which can put it there.
   */
  lemma ReadReplyIsWithItsCall(children: nat, steps: seq<Action>, s: System, id: nat)
    requires Run(Initial(children), steps, s)
    requires id in s.demux.calls && s.demux.calls[id].stage.Awaiting? && WasRead(s, s.demux.calls[id].seqNo)
    ensures HasReply(s.demux.calls[id]) || (s.demux.reader.Holding? && s.demux.reader.id == id && Enabled(s, Go(Demux.SendHeld)))
  {
    hide Run, SystemInv;
    InitialInv(children);
    StartServed(children);
    ServedOnRuns(Initial(children), steps, s);
    assert CallServed(s, id);
  }

  // ---------------------------------------------------------------- all calls can return

  function InPoolAll(acts: seq<Pool.Action>): seq<Action> {
    seq(|acts|, i requires 0 <= i < |acts| => InPool(acts[i]))
  }

  lemma {:induction false} PoolAlone(s: System, acts: seq<Pool.Action>, q: Pool.Pool)
    requires Drains.Steps(s.pool, acts, q)
    ensures Run(s, InPoolAll(acts), s.(pool := q))
    decreases |acts|
  {
    hide Pool.Apply, Pool.Enabled;
    if acts != [] {
      var t := Apply(s, InPool(acts[0]));
      PoolAlone(t, acts[1..], q);
      assert InPoolAll(acts)[1..] == InPoolAll(acts[1..]);
      assert t.(pool := q) == s.(pool := q);
    }
  }

  lemma {:induction false} RunsJoin(a: System, s: seq<Action>, b: System, t: seq<Action>, c: System)
    requires Run(a, s, b) && Run(b, t, c)
    ensures Run(a, s + t, c)
    decreases |s|
  {
    hide Enabled, Apply;
    if s == [] {
      assert s + t == t;
    } else {
      RunsJoin(Apply(a, s[0]), s[1..], b, t, c);
      assert (s + t)[1..] == s[1..] + t;
    }
  }

  lemma OneStep(s: System, a: Action)
    requires Enabled(s, a)
    ensures Run(s, [a], Apply(s, a))
  {
    assert [a][1..] == [];
    assert Run(Apply(s, a), [], Apply(s, a));
  }

  /** The same calls with the same requests, as far along. */
  ghost predicate SameCalls(s: System, t: System) {
    && t.demux.calls.Keys == s.demux.calls.Keys
    && forall id <- s.demux.calls.Keys ::
         JobOf(t.demux.calls[id]) == JobOf(s.demux.calls[id]) && t.demux.calls[id].stage == s.demux.calls[id].stage
  }

  /** The reader lets go of what it holds. */
  lemma HandFree(s: System) returns (steps: seq<Action>, t: System)
    requires SystemInv(s) && !s.demux.reader.Stopped?
    ensures Run(s, steps, t) && t.demux.reader.Reading? && SameCalls(s, t) && t.pool == s.pool && t.read == s.read
  {
    if s.demux.reader.Holding? {
      OneStep(s, Go(Demux.SendHeld));
      steps, t := [Go(Demux.SendHeld)], Apply(s, Go(Demux.SendHeld));
    } else {
      steps, t := [], s;
    }
  }

  lemma ReplyTaken(s: System) returns (steps: seq<Action>, t: System)
    requires SystemInv(s) && s.demux.reader.Reading? && s.pool.stdout != []
    ensures Run(s, steps, t) && SystemInv(t) && t.demux.reader.Reading? && SameCalls(s, t)
    ensures t.pool == s.pool.(stdout := s.pool.stdout[1..]) && t.read == s.read + [s.pool.stdout[0]]
  {
    var read := Go(Demux.ReadReply(s.pool.stdout[0]));
    OneStep(s, read);
    var s1 := Apply(s, read);
    SystemInvStep(s, read);
    var steps2;
    steps2, t := HandFree(s1);
    assert SameCalls(s, t);
    hide SystemInv;
    RunsJoin(s, [read], s1, steps2, t);
    steps := [read] + steps2;
    SystemInvOnRuns(s1, steps2, t);
  }

  /** The reader takes all replies off the pipe. */
  lemma {:induction false} PipeEmptied(s: System) returns (steps: seq<Action>, t: System)
    requires SystemInv(s) && s.demux.reader.Reading?
    ensures Run(s, steps, t) && SystemInv(t) && t.demux.reader.Reading? && SameCalls(s, t)
    ensures t.pool == s.pool.(stdout := []) && t.read == s.read + s.pool.stdout
    decreases |s.pool.stdout|
  {
    hide SystemInv;
    if s.pool.stdout == [] {
      steps, t := [], s;
    } else {
      var steps1, s1 := ReplyTaken(s);
      var steps2;
      steps2, t := PipeEmptied(s1);
      steps := steps1 + steps2;
      RunsJoin(s, steps1, s1, steps2, t);
    }
  }

  ghost predicate AllAlive(p: Pool.Pool) {
    forall c <- p.children :: c.alive
  }

  lemma LivesKept(p: Pool.Pool, q: Pool.Pool)
    requires Drains.SameLives(p, q) && AllAlive(p)
    ensures AllAlive(q)
  {
    forall c | c in q.children ensures c.alive {
      var i :| 0 <= i < |q.children| && q.children[i] == c;
      assert p.children[i] in p.children;
    }
  }

  /** With stdin closed, leader and children can finish, and nobody dies on the way. */
  lemma LeaderCanLeave(s: System) returns (steps: seq<Action>, t: System)
    requires SystemInv(s) && Pool.Running(s.pool) && !s.pool.stdinClosed && Drains.NoQuit(s.pool)
    ensures Run(s, steps, t) && t.demux == s.demux && t.read == s.read
    ensures t.pool.phase.Exited? && t.pool.stdin == [] && !t.pool.loop.quitting && t.pool.submitted == s.pool.submitted
    ensures AllAlive(s.pool) ==> AllAlive(t.pool)
  {
    var s1 := Apply(s, CloseStdin);
    OneStep(s, CloseStdin);
    SystemInvStep(s, CloseStdin);
    var acts, q := Drains.CanDrain(s1.pool);
    hide SystemInv;
    PoolAlone(s1, acts, q);
    t := s1.(pool := q);
    RunsJoin(s, [CloseStdin], s1, InPoolAll(acts), t);
    steps := [CloseStdin] + InPoolAll(acts);
    if AllAlive(s.pool) {
      LivesKept(s1.pool, q);
    }
  }

  /** At the end of the leader's output each waiting call has exactly one message, its reply if that was read. */
  lemma OutputEnded(s: System) returns (t: System)
    requires SystemInv(s) && Served(s) && s.demux.reader.Reading? && s.pool.stdout == [] && !Pool.Running(s.pool)
    ensures Run(s, [Go(Demux.ReadEnd)], t) && SameCalls(s, t) && t.pool == s.pool && t.read == s.read
    ensures t.demux.pending == map[] && t.demux.reader.Stopped?
    ensures forall id <- t.demux.calls.Keys :: Waits(t.demux.calls[id]) ==>
      |t.demux.calls[id].channel| == 1 && (WasRead(t, t.demux.calls[id].seqNo) ==> HasReply(t.demux.calls[id]))
  {
    Demux.EndReachesEveryWaiter(s.demux);
    OneStep(s, Go(Demux.ReadEnd));
    t := Apply(s, Go(Demux.ReadEnd));
    hide PoolInv, SubmittedByCalls, DemuxGenuine, AnsweredOnPipe;
    forall id | id in t.demux.calls && Waits(t.demux.calls[id])
      ensures |t.demux.calls[id].channel| == 1 && (WasRead(t, t.demux.calls[id].seqNo) ==> HasReply(t.demux.calls[id]))
    {
      assert CallServed(s, id) && Demux.CallInv(s.demux, id);
    }
  }

  /**
   No state of the protocol is a dead end. From every reachable state in which the leader runs and no
   quit has been given, whoever has died so far, there is a continuation in which nobody dies, nobody
   calls any more, the leader leaves its loop, and every call that waits has exactly one message in
   its channel, so that it can return. While all children live, every command ever written gets
   exactly one reply, and every waiting call has the reply to its own.
   */
  lemma AllCallsCanReturn(children: nat, steps: seq<Action>, s: System) returns (more: seq<Action>, t: System)
    requires Run(Initial(children), steps, s)
    requires Pool.Running(s.pool) && !s.pool.stdinClosed && Drains.NoQuit(s.pool)
    ensures Run(Initial(children), steps + more, t) && SameCalls(s, t)
    ensures t.pool.phase.Exited? && t.pool.stdout == [] && t.demux.reader.Stopped? && t.demux.pending == map[]
    ensures forall id <- t.demux.calls.Keys :: Waits(t.demux.calls[id]) ==>
      |t.demux.calls[id].channel| == 1 && (WasRead(t, t.demux.calls[id].seqNo) ==> HasReply(t.demux.calls[id]))
    ensures AllAlive(s.pool) ==>
      && (forall job <- s.pool.submitted :: Replied(t, job.seqNo) == 1)
      && forall id <- t.demux.calls.Keys :: t.demux.calls[id].stage.Awaiting? ==> HasReply(t.demux.calls[id])
  {
    hide Run, SystemInv, Served, Waits, HasReply, WasRead, Drains.NoQuit;
    InitialInv(children);
    StartServed(children);
    ServedOnRuns(Initial(children), steps, s);
    assert !s.demux.reader.Stopped? by { RunningIsRead(s); }
    var steps1, s1 := LeaderCanLeave(s);
    SystemInvOnRuns(s, steps1, s1);
    var steps2, s2 := HandFree(s1);
    SystemInvOnRuns(s1, steps2, s2);
    var steps3, s3 := PipeEmptied(s2);
    RunsJoin(s, steps1, s1, steps2, s2);
    RunsJoin(s, steps1 + steps2, s2, steps3, s3);
    ServedOnRuns(s, steps1 + steps2 + steps3, s3);
    t := OutputEnded(s3);
    more := steps1 + steps2 + steps3 + [Go(Demux.ReadEnd)];
    RunsJoin(s, steps1 + steps2 + steps3, s3, [Go(Demux.ReadEnd)], t);
    RunsJoin(Initial(children), steps, s, more, t);
    ServedOnRuns(Initial(children), steps + more, t);
    if AllAlive(s.pool) {
      AliveAnswersAll(children, steps + more, t);
    }
  }

  lemma RunningIsRead(s: System)
    requires Served(s) && Pool.Running(s.pool)
    ensures !s.demux.reader.Stopped?
  {
  }

  lemma AliveAnswersAll(children: nat, steps: seq<Action>, t: System)
    requires Run(Initial(children), steps, t) && SystemInv(t) && Served(t)
    requires t.pool.phase.Exited? && t.pool.stdin == [] && !t.pool.loop.quitting && t.pool.stdout == [] && AllAlive(t.pool)
    requires t.demux.reader.Stopped?
    ensures forall job <- t.pool.submitted :: Replied(t, job.seqNo) == 1
    ensures forall id <- t.demux.calls.Keys :: t.demux.calls[id].stage.Awaiting? ==> HasReply(t.demux.calls[id])
  {
    hide Run, SystemInv;
    forall job | job in t.pool.submitted ensures Replied(t, job.seqNo) == 1 {
      ExitAnswersEveryCommand(children, steps, t, job.seqNo);
    }
    forall id | id in t.demux.calls && t.demux.calls[id].stage.Awaiting? ensures HasReply(t.demux.calls[id]) {
      assert CallServed(t, id);
      RepliedWasRead(t, t.demux.calls[id].seqNo);
    }
  }

  lemma RepliedWasRead(t: System, no: int)
    requires t.pool.stdout == [] && Replied(t, no) > 0
    ensures WasRead(t, no)
  {
    assert t.read + t.pool.stdout == t.read;
    NumberedReply(t.read, no);
  }

  lemma {:induction false} NumberedReply(replies: seq<Reply>, no: int)
    requires Pool.ReplyTimes(replies, no) > 0
    ensures exists r <- replies :: r.seqNo == no
  {
    if replies[0].seqNo != no {
      NumberedReply(replies[1..], no);
      var r :| r in replies[1..] && r.seqNo == no;
      assert r in replies;
    }
  }
}
