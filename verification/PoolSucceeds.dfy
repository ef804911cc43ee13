/**
 Pool mode can succeed, on every document and with any number of children: a run of pool, cache and
 goroutines in which every chunk is rendered, by a child if there is one, with file names as the
 orchestrator writes them. It meets everything that PoolModeKeepsPages and PoolModeWithCache ask for.
 */
module PoolSucceeds {
  import opened Basics
  import opened Types
  import opened Planner
  import opened PdfPages
  import opened PoolProtocol
  import opened Convert
  import opened PoolWithCache
  import Cache
  import Decimals
  import Pool = ForkPool
  import Demux = ReplyDemux
  import Protocol = ForkProtocol
  import Gather = RenderAll
  import PipeContents

  // ---------------------------------------------------------------- names

  /** Whole indices get a decimal point; they are written so up to six digits. */
  function AsWritten(dir: string): Spelling {
    Spelling(dir, (index: real) => Decimals.Signed(index.Floor) + ".0")
  }

  /** Names as they are written tell the chunks of a plan apart, and need no escapes in a plain directory. */
  lemma WrittenNamesAreApart(dir: string)
    ensures Injective(AsWritten(dir))
    ensures PipeContents.Command.Plain(dir) ==> PipeContents.PlainNames(AsWritten(dir))
  {
    var name := AsWritten(dir);
    forall a, b | Whole(a) && Whole(b) && name.index(a) == name.index(b) ensures a == b {
      Cache.NumberEnds(a.Floor, b.Floor, ".0", ".0");
    }
    forall x: real ensures PipeContents.Command.Plain(name.index(x)) {
      assert forall i :: 0 <= i < |Decimals.Signed(x.Floor)| ==>
        Decimals.Signed(x.Floor)[i] == '-' || Decimals.IsDigit(Decimals.Signed(x.Floor)[i]);
    }
  }

  // ---------------------------------------------------------------- one chunk after the other

  /** The pool at rest; calls 0..n-1 have served the first n chunks. */
  ghost predicate Rested(c: Conversion, children: nat, j: State, n: nat) {
    && AtRest(j.s.pool, children) && j.s.pool.stdout == [] && j.s.pool.stdin == []
    && j.s.demux.reader.Reading? && j.s.demux.pending == map[]
    && n <= |c.chunks| && (forall id: nat :: id in j.s.demux.calls <==> id < n)
    && (forall k: nat :: k < n ==> CallFor(c.name, c.chunks, j.s.demux, k, k) && Succeeded(j.s.demux, k))
    && j.store.writers == map[] && (forall f: nat :: f in j.store.fs.data <==> f < n)
    && (forall k: nat :: k < n ==> Cache.EntryOf(UnitOf(c, c.chunks[k])) in j.store.fs.names)
  }

  function UnitOf(c: Conversion, chunk: Chunk): Cache.Unit {
    Cache.PartOf(chunk, c.digest, c.format)
  }

  /** What is stored of a plan. */
  function PlanUnits(c: Conversion): set<Cache.Unit> {
    set chunk | chunk in c.chunks :: UnitOf(c, chunk)
  }

  /** The leader at the head of its loop, its children alive and idle with nothing to do. */
  ghost predicate AtRest(p: Pool.Pool, children: nat) {
    p.phase.Head? && p.loop == Pool.Start(children).loop && p.children == Pool.Start(children).children
  }

  lemma {:induction false} RunMore(
    c: Conversion, units: set<Cache.Unit>, render: Cache.Render, a: State, steps: seq<Action>, b: State, last: Action)
    requires Run(c, units, render, a, steps, b) && Enabled(c, units, b, last)
    requires OthersTrusted(c, render, Apply(c, units, b, last).store)
    ensures Run(c, units, render, a, steps + [last], Apply(c, units, b, last))
    decreases |steps|
  {
    hide Enabled, Own, OthersTrusted, Apply;
    if steps == [] {
      assert [last][1..] == [];
      assert Run(c, units, render, Apply(c, units, b, last), [], Apply(c, units, b, last));
    } else {
      RunMore(c, units, render, Apply(c, units, a, steps[0]), steps[1..], b, last);
      assert (steps + [last])[1..] == steps[1..] + [last];
    }
  }

  /** While nothing is being copied. */
  lemma RunSnoc(
    c: Conversion, units: set<Cache.Unit>, render: Cache.Render, a: State, steps: seq<Action>, b: State, last: Action)
    requires Run(c, units, render, a, steps, b) && Enabled(c, units, b, last)
    requires b.store.writers == map[] && !last.Store?
    ensures Run(c, units, render, a, steps + [last], Apply(c, units, b, last))
  {
    NothingCopied(c, render, Apply(c, units, b, last));
    hide Run, Enabled, Own;
    RunMore(c, units, render, a, steps, b, last);
  }

  lemma NothingCopied(c: Conversion, render: Cache.Render, j: State)
    requires j.store.writers == map[]
    ensures OthersTrusted(c, render, j.store)
  {
  }

  /** The request for chunk n is not one for an earlier chunk. */
  lemma NextIsFresh(c: Conversion, children: nat, j: State, n: nat)
    requires Injective(c.name) && Numbered(c.chunks) && Rested(c, children, j, n) && n < |c.chunks|
    ensures StartsChunk(c, j.s.demux, RequestFor(c.name, c.chunks[n]))
  {
    hide OutputPath, Succeeded;
    forall id: nat ensures !CallFor(c.name, c.chunks, j.s.demux, id, n) {
      if CallFor(c.name, c.chunks, j.s.demux, id, n) {
        assert CallFor(c.name, c.chunks, j.s.demux, id, id);
        OutputNamesChunk(c.name, c.chunks[id], c.chunks[n]);
      }
    }
  }

  /** Call n starts, registers and writes its command. */
  lemma CommandWritten(
    c: Conversion, units: set<Cache.Unit>, render: Cache.Render, a: State, before: seq<Action>, j: State, n: nat, req: Request)
    returns (steps: seq<Action>, t: State)
    requires Run(c, units, render, a, before, j) && j.store.writers == map[]
    requires n !in j.s.demux.calls && j.s.demux.pending == map[] && StartsChunk(c, j.s.demux, req)
    ensures Run(c, units, render, a, steps, t) && t.store == j.store
    ensures var no := j.s.demux.lastSeqNo + 1;
      && t.s.demux == j.s.demux.(lastSeqNo := no, pending := map[no := n],
                                 calls := j.s.demux.calls[n := Demux.Call(no, req, Demux.Awaiting, [], 0)])
      && t.s.pool == Protocol.Submit(j.s.pool, Job(no, req))
  {
    hide Run, StartsChunk;
    var start, register, write := Talk(Protocol.Go(Demux.Start(n, req))), Talk(Protocol.Go(Demux.Register(n))), Talk(Protocol.Go(Demux.Write(n)));
    RunSnoc(c, units, render, a, before, j, start);
    var s1 := Apply(c, units, j, start);
    RunSnoc(c, units, render, a, before + [start], s1, register);
    var s2 := Apply(c, units, s1, register);
    RunSnoc(c, units, render, a, before + [start] + [register], s2, write);
    steps, t := before + [start] + [register] + [write], Apply(c, units, s2, write);
  }

  /** The only command is read and rendered, by the leader if it has no children, and the pool is at rest again. */
  lemma CommandRendered(
    c: Conversion, children: nat, units: set<Cache.Unit>, render: Cache.Render, a: State, before: seq<Action>, j: State, job: Job)
    returns (steps: seq<Action>, t: State)
    requires Run(c, units, render, a, before, j) && j.store.writers == map[]
    requires AtRest(j.s.pool, children) && j.s.pool.stdin == [PoolProtocol.Render(job)] && j.s.pool.stdout == []
    requires !BadArgs(job.req) && job.req.pageStart - 1 <= |c.doc|
    ensures Run(c, units, render, a, steps, t)
    ensures t.s.demux == j.s.demux && AtRest(t.s.pool, children)
    ensures t.s.pool.stdin == [] && t.s.pool.stdout == [Done(job.seqNo, job.req.output)]
    ensures t.store == j.store.(scratch := j.store.scratch[job.req.output := Slice(c.doc, job.req.pageStart, job.req.pageEnd)])
  {
    hide Run, FirstIdle;
    var poll, take := Talk(Protocol.InPool(Pool.Poll(1, false))), Talk(Protocol.InPool(Pool.TakeLine));
    RunSnoc(c, units, render, a, before, j, poll);
    var s1 := Apply(c, units, j, poll);
    assert s1.s.pool.phase == Pool.Batch([PoolProtocol.Render(job)], false) && s1.s.pool.stdin == [];
    RunSnoc(c, units, render, a, before + [poll], s1, take);
    var s2 := Apply(c, units, s1, take);
    if children == 0 {
      assert s1.s.pool.loop.busy == [] && FirstIdle([]) == 0;
      assert s2.s.pool.phase == Pool.Inline(job, [], false);
      steps, t := LeaderRenders(c, units, render, a, before + [poll] + [take], s2, job);
    } else {
      assert !s1.s.pool.loop.busy[0] && FirstIdle(s1.s.pool.loop.busy) == 0;
      assert Pool.FRESH_CHILD.inbox + [job] == [job];
      steps, t := ChildRenders(c, children, units, render, a, before + [poll] + [take], s2, job);
    }
  }

  lemma LeaderRenders(
    c: Conversion, units: set<Cache.Unit>, render: Cache.Render, a: State, before: seq<Action>, j: State, job: Job)
    returns (steps: seq<Action>, t: State)
    requires Run(c, units, render, a, before, j) && j.store.writers == map[]
    requires j.s.pool.phase == Pool.Inline(job, [], false) && j.s.pool.children == []
    requires j.s.pool.loop == Pool.Start(0).loop.(leaderBusy := true) && j.s.pool.stdin == [] && j.s.pool.stdout == []
    requires !BadArgs(job.req) && job.req.pageStart - 1 <= |c.doc|
    ensures Run(c, units, render, a, steps, t)
    ensures t.s.demux == j.s.demux && AtRest(t.s.pool, 0)
    ensures t.s.pool.stdin == [] && t.s.pool.stdout == [Done(job.seqNo, job.req.output)]
    ensures t.store == j.store.(scratch := j.store.scratch[job.req.output := Slice(c.doc, job.req.pageStart, job.req.pageEnd)])
  {
    hide Run;
    var finish := PoolWithCache.Render(Protocol.InPool(Pool.FinishInline(Rendered)), Slice(c.doc, job.req.pageStart, job.req.pageEnd));
    var end := Talk(Protocol.InPool(Pool.EndBatch));
    RunSnoc(c, units, render, a, before, j, finish);
    var s1 := Apply(c, units, j, finish);
    RunSnoc(c, units, render, a, before + [finish], s1, end);
    var s2 := Apply(c, units, s1, end);
    steps, t := IterationEnded(c, 0, units, render, a, before + [finish] + [end], s2);
  }

  /** Child 0 takes its job, renders it and answers; the leader forwards that and looks at the others. */
  lemma ChildRenders(
    c: Conversion, children: nat, units: set<Cache.Unit>, render: Cache.Render, a: State, before: seq<Action>, j: State, job: Job)
    returns (steps: seq<Action>, t: State)
    requires Run(c, units, render, a, before, j) && j.store.writers == map[] && children > 0
    requires j.s.pool.phase == Pool.Batch([], false) && j.s.pool.stdin == [] && j.s.pool.stdout == []
    requires j.s.pool.children == Pool.Start(children).children[0 := Pool.FRESH_CHILD.(inbox := [job])]
    requires j.s.pool.loop == Pool.Start(children).loop.(busy := Pool.Start(children).loop.busy[0 := true])
    requires !BadArgs(job.req) && job.req.pageStart - 1 <= |c.doc|
    ensures Run(c, units, render, a, steps, t)
    ensures t.s.demux == j.s.demux && AtRest(t.s.pool, children)
    ensures t.s.pool.stdin == [] && t.s.pool.stdout == [Done(job.seqNo, job.req.output)]
    ensures t.store == j.store.(scratch := j.store.scratch[job.req.output := Slice(c.doc, job.req.pageStart, job.req.pageEnd)])
  {
    hide Run;
    var end := Talk(Protocol.InPool(Pool.EndBatch));
    RunSnoc(c, units, render, a, before, j, end);
    var s1 := Apply(c, units, j, end);
    var steps2, s2 := ChildWorks(c, children, units, render, a, before + [end], s1, job);
    var steps3, s3 := ReplyForwarded(c, children, units, render, a, steps2, s2, Done(job.seqNo, job.req.output));
    steps, t := IterationEnded(c, children, units, render, a, steps3, s3);
  }

  lemma ChildWorks(
    c: Conversion, children: nat, units: set<Cache.Unit>, render: Cache.Render, a: State, before: seq<Action>, j: State, job: Job)
    returns (steps: seq<Action>, t: State)
    requires Run(c, units, render, a, before, j) && j.store.writers == map[] && children > 0
    requires j.s.pool.phase == Pool.Children(0)
    requires j.s.pool.children == Pool.Start(children).children[0 := Pool.FRESH_CHILD.(inbox := [job])]
    requires |j.s.pool.loop.busy| == children && !BadArgs(job.req) && job.req.pageStart - 1 <= |c.doc|
    ensures Run(c, units, render, a, steps, t) && t.s.demux == j.s.demux
    ensures t.s.pool == j.s.pool.(children := t.s.pool.children, executed := t.s.pool.executed)
    ensures t.s.pool.children == Pool.Start(children).children[0 := Pool.FRESH_CHILD.(outbox := [Done(job.seqNo, job.req.output)])]
    ensures t.store == j.store.(scratch := j.store.scratch[job.req.output := Slice(c.doc, job.req.pageStart, job.req.pageEnd)])
  {
    hide Run;
    var take := Talk(Protocol.InPool(Pool.ChildTake(0)));
    var finish := PoolWithCache.Render(Protocol.InPool(Pool.ChildFinish(0, Rendered)), Slice(c.doc, job.req.pageStart, job.req.pageEnd));
    RunSnoc(c, units, render, a, before, j, take);
    var s1 := Apply(c, units, j, take);
    assert [job][1..] == [];
    assert s1.s.pool.children[0] == Pool.Child([], Some(job), [], true);
    RunSnoc(c, units, render, a, before + [take], s1, finish);
    steps, t := before + [take] + [finish], Apply(c, units, s1, finish);
    assert [] + [Done(job.seqNo, job.req.output)] == [Done(job.seqNo, job.req.output)];
    assert t.s.pool.lost == j.s.pool.lost + Pool.SeqNos([]) == j.s.pool.lost;
  }

  lemma ReplyForwarded(
    c: Conversion, children: nat, units: set<Cache.Unit>, render: Cache.Render, a: State, before: seq<Action>, j: State, answer: Reply)
    returns (steps: seq<Action>, t: State)
    requires Run(c, units, render, a, before, j) && j.store.writers == map[] && children > 0
    requires j.s.pool.phase == Pool.Children(0) && j.s.pool.stdin == [] && j.s.pool.stdout == []
    requires j.s.pool.children == Pool.Start(children).children[0 := Pool.FRESH_CHILD.(outbox := [answer])]
    requires j.s.pool.loop == Pool.Start(children).loop.(busy := Pool.Start(children).loop.busy[0 := true])
    ensures Run(c, units, render, a, steps, t) && t.store == j.store && t.s.demux == j.s.demux
    ensures t.s.pool.phase == Pool.Children(1) && t.s.pool.stdin == [] && t.s.pool.stdout == [answer]
    ensures t.s.pool.children == Pool.Start(children).children && t.s.pool.loop == Pool.Start(children).loop
  {
    hide Run;
    var drain, forward := Talk(Protocol.InPool(Pool.DrainChild(1, false))), Talk(Protocol.InPool(Pool.Forward));
    RunSnoc(c, units, render, a, before, j, drain);
    var s1 := Apply(c, units, j, drain);
    assert [answer][..1] == [answer] && [answer][1..] == [];
    assert s1.s.pool.children == Pool.Start(children).children;
    RunSnoc(c, units, render, a, before + [drain], s1, forward);
    var s2 := Apply(c, units, s1, forward);
    assert s2.s.pool.loop.busy == Pool.Start(children).loop.busy;
    steps, t := HandEmpty(c, units, render, a, before + [drain] + [forward], s2);
  }

  lemma HandEmpty(c: Conversion, units: set<Cache.Unit>, render: Cache.Render, a: State, before: seq<Action>, j: State)
    returns (steps: seq<Action>, t: State)
    requires Run(c, units, render, a, before, j) && j.store.writers == map[]
    requires j.s.pool.phase == Pool.Replies(0, [], false) && |j.s.pool.children| == |j.s.pool.loop.busy| > 0
    ensures Run(c, units, render, a, steps, t) && t == j.(s := j.s.(pool := j.s.pool.(phase := Pool.Children(1))))
  {
    hide Run;
    var leave := Talk(Protocol.InPool(Pool.EndReplies));
    RunSnoc(c, units, render, a, before, j, leave);
    steps, t := before + [leave], Apply(c, units, j, leave);
  }

  /** The leader looks at its other children, who have nothing for it, and comes to the head of its loop. */
  lemma {:induction false} IterationEnded(
    c: Conversion, children: nat, units: set<Cache.Unit>, render: Cache.Render, a: State, before: seq<Action>, j: State)
    returns (steps: seq<Action>, t: State)
    requires Run(c, units, render, a, before, j) && j.store.writers == map[]
    requires AtRest(j.s.pool.(phase := Pool.Head), children) && j.s.pool.phase.Children? && j.s.pool.phase.next <= children
    ensures Run(c, units, render, a, steps, t)
    ensures t == j.(s := j.s.(pool := j.s.pool.(phase := Pool.Head)))
    decreases children - j.s.pool.phase.next
  {
    hide Run;
    var i := j.s.pool.phase.next;
    if i == children {
      var back := Talk(Protocol.InPool(Pool.EndIteration));
      RunSnoc(c, units, render, a, before, j, back);
      steps, t := before + [back], Apply(c, units, j, back);
    } else {
      var drain, leave := Talk(Protocol.InPool(Pool.DrainChild(0, false))), Talk(Protocol.InPool(Pool.EndReplies));
      RunSnoc(c, units, render, a, before, j, drain);
      var s1 := Apply(c, units, j, drain);
      assert s1.s.pool.children == j.s.pool.children;
      RunSnoc(c, units, render, a, before + [drain], s1, leave);
      var s2 := Apply(c, units, s1, leave);
      steps, t := IterationEnded(c, children, units, render, a, before + [drain] + [leave], s2);
    }
  }

  /** The reply is read, handed to call n, and received. */
  lemma ReplyReceived(
    c: Conversion, units: set<Cache.Unit>, render: Cache.Render, a: State, before: seq<Action>, j: State, n: nat, reply: Reply)
    returns (steps: seq<Action>, t: State)
    requires Run(c, units, render, a, before, j) && j.store.writers == map[]
    requires j.s.pool.stdout == [reply] && j.s.demux.reader.Reading? && j.s.demux.pending == map[reply.seqNo := n]
    requires n in j.s.demux.calls && j.s.demux.calls[n].seqNo == reply.seqNo
    requires j.s.demux.calls[n].stage.Awaiting? && j.s.demux.calls[n].channel == []
    ensures Run(c, units, render, a, steps, t) && t.store == j.store
    ensures t.s.pool == j.s.pool.(stdout := []) && t.s.demux.pending == map[] && t.s.demux.reader.Reading?
    ensures t.s.demux.calls.Keys == j.s.demux.calls.Keys
    ensures forall id <- j.s.demux.calls.Keys :: id != n ==> t.s.demux.calls[id] == j.s.demux.calls[id]
    ensures t.s.demux.calls[n].req == j.s.demux.calls[n].req
    ensures Protocol.HasResult(t.s.demux.calls[n], Demux.Got(Demux.FromWorker(reply)))
  {
    hide Run;
    var read, send := Talk(Protocol.Go(Demux.ReadReply(reply))), Talk(Protocol.Go(Demux.SendHeld));
    var receive, leave := Talk(Protocol.Go(Demux.Receive(n))), Talk(Protocol.Go(Demux.Unregister(n)));
    RunSnoc(c, units, render, a, before, j, read);
    var s1 := Apply(c, units, j, read);
    RunSnoc(c, units, render, a, before + [read], s1, send);
    var s2 := Apply(c, units, s1, send);
    RunSnoc(c, units, render, a, before + [read] + [send], s2, receive);
    var s3 := Apply(c, units, s2, receive);
    RunSnoc(c, units, render, a, before + [read] + [send] + [receive], s3, leave);
    steps, t := before + [read] + [send] + [receive] + [leave], Apply(c, units, s3, leave);
  }

  lemma ChunkServed(
    c: Conversion, children: nat, units: set<Cache.Unit>, render: Cache.Render, a: State, before: seq<Action>, j: State, n: nat)
    returns (steps: seq<Action>, t: State)
    requires Injective(c.name) && Numbered(c.chunks) && Run(c, units, render, a, before, j)
    requires Rested(c, children, j, n) && n < |c.chunks| && UnitOf(c, c.chunks[n]) in units
    requires 1 <= c.chunks[n].pageStart <= c.chunks[n].pageEnd && c.chunks[n].pageStart - 1 <= |c.doc|
    ensures Run(c, units, render, a, steps, t) && Rested(c, children, t, n + 1)
  {
    hide Run, OutputPath, StartsChunk, Cache.KeyText;
    var req, no := RequestFor(c.name, c.chunks[n]), j.s.demux.lastSeqNo + 1;
    NextIsFresh(c, children, j, n);
    assert req.output != "" by { PathIsNotEmpty(c.name, c.chunks[n].index); }
    var steps1, s1 := CommandWritten(c, units, render, a, before, j, n, req);
    var steps2, s2 := CommandRendered(c, children, units, render, a, steps1, s1, Job(no, req));
    var reply := Done(no, req.output);
    var steps3, s3 := ReplyReceived(c, units, render, a, steps2, s2, n, reply);
    forall k: nat | k < n + 1 ensures CallFor(c.name, c.chunks, s3.s.demux, k, k) && Succeeded(s3.s.demux, k) {
      if k < n {
        assert CallFor(c.name, c.chunks, j.s.demux, k, k) && Succeeded(j.s.demux, k);
        assert s3.s.demux.calls[k] == j.s.demux.calls[k];
      }
    }
    steps, t := ChunkStored(c, units, render, a, steps3, s3, n);
    forall k: nat | k < n + 1 ensures Cache.EntryOf(UnitOf(c, c.chunks[k])) in t.store.fs.names {
      assert !Cache.EntryOf(UnitOf(c, c.chunks[k])).Temp?;
    }
  }

  /** The goroutine of a rendered chunk copies its file into the cache. */
  lemma ChunkStored(
    c: Conversion, units: set<Cache.Unit>, render: Cache.Render, a: State, before: seq<Action>, j: State, n: nat)
    returns (steps: seq<Action>, t: State)
    requires Run(c, units, render, a, before, j) && j.store.writers == map[] && n !in j.store.fs.data
    requires n < |c.chunks| && UnitOf(c, c.chunks[n]) in units && OutputPath(c.name, c.chunks[n].index) in j.store.scratch
    requires CallFor(c.name, c.chunks, j.s.demux, n, n) && Succeeded(j.s.demux, n)
    ensures Run(c, units, render, a, steps, t) && t.s == j.s && t.store.writers == map[]
    ensures t.store.fs.data.Keys == j.store.fs.data.Keys + {n}
    ensures t.store.fs.names.Keys >= j.store.fs.names.Keys - {Cache.Temp(n)} + {Cache.EntryOf(UnitOf(c, c.chunks[n]))}
  {
    hide Run, OutputPath, Succeeded, CallFor, Cache.EntryOf;
    var w := WriterFor(c, c.chunks[n]);
    assert CopyOfCall(c, j.s.demux, w) && Own(c, w.source);
    var whole := j.store.scratch[w.source];
    var create, append, publish := Store(Cache.Create(n, w)), Store(Cache.Append(n, |whole|)), Store(Cache.Publish(n));
    hide CopyOfCall, Own;
    var s1 := Apply(c, units, j, create);
    RunMore(c, units, render, a, before, j, create);
    var s2 := Apply(c, units, s1, append);
    RunMore(c, units, render, a, before + [create], s1, append);
    assert s2.store.fs.data[n] == whole;
    var s3 := Apply(c, units, s2, publish);
    NothingCopied(c, render, s3);
    RunMore(c, units, render, a, before + [create] + [append], s2, publish);
    steps, t := before + [create] + [append] + [publish], s3;
  }

  lemma PathIsNotEmpty(name: Spelling, index: real)
    ensures OutputPath(name, index) != ""
  {
  }

  /** All chunks of a plan within the document, served in turn. */
  lemma {:induction false} AllServed(
    c: Conversion, children: nat, units: set<Cache.Unit>, render: Cache.Render, a: State, before: seq<Action>, j: State, n: nat)
    returns (steps: seq<Action>, t: State)
    requires Injective(c.name) && Numbered(c.chunks) && Run(c, units, render, a, before, j) && Rested(c, children, j, n)
    requires forall chunk <- c.chunks :: 1 <= chunk.pageStart <= chunk.pageEnd && chunk.pageStart - 1 <= |c.doc|
    requires PlanUnits(c) <= units
    ensures Run(c, units, render, a, steps, t) && Rested(c, children, t, |c.chunks|)
    decreases |c.chunks| - n
  {
    assert n <= |c.chunks|;
    hide Run, Rested, Injective;
    if n == |c.chunks| {
      steps, t := before, j;
    } else {
      assert c.chunks[n] in c.chunks && UnitOf(c, c.chunks[n]) in PlanUnits(c);
      var steps1, s1 := ChunkServed(c, children, units, render, a, before, j, n);
      steps, t := AllServed(c, children, units, render, a, steps1, s1, n + 1);
    }
  }

  // ---------------------------------------------------------------- a whole conversion

  /** Rendering from scratch, for this document. */
  function RenderOf(doc: seq<Page>): Cache.Render {
    (u: Cache.Unit) =>
      if u.Part? && 1 <= u.pageStart <= u.pageEnd && u.pageStart - 1 <= |doc| then Slice(doc, u.pageStart, u.pageEnd) else []
  }

  ghost predicate EachServed(c: Conversion, d: Demux.Demux, g: Gather.State) {
    && Gather.Returned(g) && g.firstErr.None? && !g.cancelledOutside && |g.finished| == |c.chunks|
    && forall k: nat :: k < |c.chunks| ==>
         && g.finished[k] == Some(Gather.Ok(OutputPath(c.name, c.chunks[k].index)))
         && CallFor(c.name, c.chunks, d, k, k) && Succeeded(d, k)
  }

  /** Any numbered plan within the document can be served to the end. */
  lemma PlanServed(c: Conversion, children: nat, parallel: int)
    returns (steps: seq<Action>, j: State, gathering: seq<Gather.Action>, g: Gather.State)
    requires Injective(c.name) && Numbered(c.chunks)
    requires forall chunk <- c.chunks :: 1 <= chunk.pageStart <= chunk.pageEnd && chunk.pageStart - 1 <= |c.doc|
    ensures Run(c, PlanUnits(c), RenderOf(c.doc), Initial(children), steps, j)
    ensures forall k: nat :: k < |c.chunks| ==> Cache.EntryOf(UnitOf(c, c.chunks[k])) in j.store.fs.names
    ensures Gather.Run(parallel, Gather.Start(|c.chunks|), gathering, g) && EachServed(c, j.s.demux, g)
  {
    var start := Initial(children);
    assert Run(c, PlanUnits(c), RenderOf(c.doc), start, [], start) && Rested(c, children, start, 0);
    hide Run, Gather.Run, Succeeded, OutputPath;
    steps, j := AllServed(c, children, PlanUnits(c), RenderOf(c.doc), start, [], start, 0);
    var paths := seq(|c.chunks|, k requires 0 <= k < |c.chunks| => OutputPath(c.name, c.chunks[k].index));
    gathering, g := Gather.ServedInTurn(parallel, paths, Gather.Start(|paths|), 0);
  }

  lemma PlanWithinDocument(doc: seq<Page>, probe: ProbeResult, settings: Settings)
    requires doc != [] && (SeamsTile(probe) || |doc| != FirstPlan(settings, probe).totalPages)
    ensures var plan := PoolPlan(settings, probe, Some(|doc|));
      && plan.totalPages == |doc| && Numbered(plan.chunks)
      && forall chunk <- plan.chunks :: 1 <= chunk.pageStart <= chunk.pageEnd && chunk.pageStart - 1 <= |doc|
  {
    hide PoolPlan, FirstPlan, Tiles;
    PoolPlanCovers(settings, probe, Some(|doc|));
    SpansOfCover(PoolPlan(settings, probe, Some(|doc|)).chunks, |doc|);
  }

  lemma AscendingIsSorted(chunks: seq<Chunk>, out: seq<Option<string>>)
    requires |out| == |chunks| && Numbered(chunks) && forall k :: 0 <= k < |out| ==> out[k].Some?
    ensures SortedByIndex(Collected(chunks, out), Collected(chunks, out))
  {
  }

  lemma EachServedIsServed(c: Conversion, j: State, g: Gather.State)
    requires PoolWithCache.Inv(c, j) && EachServed(c, j.s.demux, g)
    ensures CallsServe(c.name, c.chunks, j.s.demux, g) && ScratchOf(c.doc, j.s.pool.executed, OwnFiles(c, j.store.scratch))
    ensures Gather.Returned(g) && g.firstErr.None? && !g.cancelledOutside
  {
    hide CallsForPlan, ScratchOf, Succeeded, OutputPath;
  }

  /**
   Pool mode can succeed on every document that is not empty, whatever the estimate, the settings
   and the number of children: there is a run that meets all that PoolModeKeepsPages asks for, and outputs the document.
   */
  lemma PoolModeCanSucceed(doc: seq<Page>, probe: ProbeResult, settings: Settings, name: Spelling, children: nat)
    returns (steps: seq<Protocol.Action>, s: Protocol.System, gathering: seq<Gather.Action>, g: Gather.State, files: Files, sorted: seq<ChunkPath>)
    requires doc != [] && (SeamsTile(probe) || |doc| != FirstPlan(settings, probe).totalPages)
    requires Injective(name)
    ensures var plan := PoolPlan(settings, probe, Some(|doc|));
      && plan.chunks != []
      && Protocol.Run(Protocol.Initial(children), steps, s)
      && Gather.Run(settings.parallel, Gather.Start(|plan.chunks|), gathering, g)
      && Gather.Returned(g) && g.firstErr.None? && !g.cancelledOutside
      && CallsServe(name, plan.chunks, s.demux, g) && ScratchOf(doc, s.pool.executed, files)
      && |g.out| == |plan.chunks| && (forall k :: 0 <= k < |g.out| ==> g.out[k].Some?)
      && SortedByIndex(Collected(plan.chunks, g.out), sorted)
      && Concat(files, Paths(sorted)) == Some(doc)
  {
    var plan := PoolPlan(settings, probe, Some(|doc|));
    var c := Conversion(doc, name, plan.chunks, "", "pdf");
    assert Protocol.Run(Protocol.Initial(children), [], Protocol.Initial(children));
    hide Run, Protocol.Run, Gather.Run, PoolPlan, FirstPlan, EachServed, CallsServe, Injective, ScratchOf, Concat, SortedByIndex, Gather.Returned, Numbered;
    hide PoolWithCache.Inv, OwnFiles;
    PlanWithinDocument(doc, probe, settings);
    PoolPlanCovers(settings, probe, Some(|doc|));
    var both, j;
    both, j, gathering, g := PlanServed(c, children, settings.parallel);
    InitialInv(c, children);
    var caching;
    steps, caching := RunIsTrusted(c, PlanUnits(c), RenderOf(doc), children, [], Initial(children), both, j);
    s, files := j.s, OwnFiles(c, j.store.scratch);
    EachServedIsServed(c, j, g);
    Gather.ReturnIsFaithful(settings.parallel, |plan.chunks|, gathering, g);
    sorted := Collected(plan.chunks, g.out);
    AscendingIsSorted(plan.chunks, g.out);
    PoolModeKeepsPages(doc, probe, settings, Some(|doc|), name, children, steps, s, gathering, g, files, sorted);
  }

  lemma CacheFacts(c: Conversion, spell: Cache.Path -> string, j: State, g: Gather.State)
    requires Cache.HexDigest(c.digest) && EachServed(c, j.s.demux, g)
    requires forall chunk <- c.chunks :: 1 <= chunk.pageStart <= chunk.pageEnd && chunk.pageStart - 1 <= |c.doc|
    requires forall p, index :: spell(p) != OutputPath(c.name, index)
    ensures Cache.RendersSlices(c.doc, c.digest, c.format, RenderOf(c.doc))
    ensures StoredCanBeRendered(c, PlanUnits(c)) && Cache.DigestsAreHex(PlanUnits(c))
    ensures Gather.Returned(g) && g.firstErr.None? && !g.cancelledOutside && ServedOrFound(c, spell, j.s.demux, g)
    ensures FoundByMerge(c, spell, j.store, OwnFiles(c, j.store.scratch))
    ensures forall k: nat :: k < |c.chunks| ==>
      && k < |g.finished| && g.finished[k] == Some(Gather.Ok(OutputPath(c.name, c.chunks[k].index)))
      && g.finished[k].value.path != spell(Cache.EntryOf(UnitOf(c, c.chunks[k])))
  {
    hide Cache.KeyText, OutputPath, Succeeded, Slice;
  }

  /**
   Likewise with the cache, in a directory of its own: there is a run that meets all that
   PoolModeWithCache asks for, and leaves every chunk in the cache.
   */
  lemma PoolModeWithCacheCanSucceed(
    doc: seq<Page>, probe: ProbeResult, settings: Settings, name: Spelling, children: nat, digest: string, format: string, spell: Cache.Path -> string)
    returns (c: Conversion, steps: seq<Action>, j: State, gathering: seq<Gather.Action>, g: Gather.State, files: Files, sorted: seq<ChunkPath>)
    requires doc != [] && (SeamsTile(probe) || |doc| != FirstPlan(settings, probe).totalPages)
    requires Injective(name) && Cache.HexDigest(digest)
    requires forall p, index :: spell(p) != OutputPath(name, index)
    ensures c == Conversion(doc, name, PoolPlan(settings, probe, Some(|doc|)).chunks, digest, format) && c.chunks != []
    ensures Cache.RendersSlices(doc, digest, format, RenderOf(doc)) && StoredCanBeRendered(c, PlanUnits(c)) && Cache.DigestsAreHex(PlanUnits(c))
    ensures Run(c, PlanUnits(c), RenderOf(doc), Initial(children), steps, j)
    ensures Gather.Run(settings.parallel, Gather.Start(|c.chunks|), gathering, g)
    ensures Gather.Returned(g) && g.firstErr.None? && !g.cancelledOutside
    ensures ServedOrFound(c, spell, j.s.demux, g) && FoundByMerge(c, spell, j.store, files)
    ensures forall k: nat :: k < |c.chunks| ==> Cache.EntryOf(UnitOf(c, c.chunks[k])) in j.store.fs.names
    ensures |g.out| == |c.chunks| && (forall k :: 0 <= k < |g.out| ==> g.out[k].Some?)
    ensures SortedByIndex(Collected(c.chunks, g.out), sorted) && Concat(files, Paths(sorted)) == Some(doc)
  {
    c := Conversion(doc, name, PoolPlan(settings, probe, Some(|doc|)).chunks, digest, format);
    hide Run, Gather.Run, PoolPlan, FirstPlan, Injective, Concat, SortedByIndex, Gather.Returned, Numbered, EachServed, ServedOrFound;
    hide FoundByMerge, OwnFiles, StoredCanBeRendered, Cache.DigestsAreHex, Cache.HexDigest, Cache.RendersSlices, Cache.EntryOf, OutputPath;
    PlanWithinDocument(doc, probe, settings);
    PoolPlanCovers(settings, probe, Some(|doc|));
    steps, j, gathering, g := PlanServed(c, children, settings.parallel);
    CacheFacts(c, spell, j, g);
    Gather.ReturnIsFaithful(settings.parallel, |c.chunks|, gathering, g);
    files, sorted := OwnFiles(c, j.store.scratch), Collected(c.chunks, g.out);
    AscendingIsSorted(c.chunks, g.out);
    PoolModeWithCache(c, probe, settings, Some(|doc|), PlanUnits(c), RenderOf(doc), children, steps, j, gathering, g, spell, files, sorted);
    assert doc[..|doc|] == doc;
  }
}
