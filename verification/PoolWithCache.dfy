/**
 A conversion in pool mode with the cache on. The protocol of its pool and the cache that it shares
 with other jobs run side by side: the end of a render writes a scratch file, and once a call has
 succeeded its file is copied into the cache, step by step.
 */
module PoolWithCache {
  import opened Basics
  import opened Types
  import opened PdfPages
  import Cache
  import Convert
  import Gather = RenderAll
  import Protocol = ForkProtocol
  import Pool = ForkPool
  import Once = ForkOnce
  import Demux = ReplyDemux
  import Messages = PoolProtocol

  datatype Conversion = Conversion(doc: seq<Page>, name: Convert.Spelling, chunks: seq<Chunk>, digest: string, format: string)

  /** The pool of this conversion, and the cache with the scratch files of all jobs. */
  datatype State = State(s: Protocol.System, store: Cache.Store)

  /** A step of the protocol, one that ends a render and writes its file, or a step of the store. */
  datatype Action = Talk(step: Protocol.Action) | Render(step: Protocol.Action, content: seq<Page>) | Store(act: Cache.Action)

  function Initial(children: nat): State {
    State(Protocol.Initial(children), Cache.EMPTY)
  }

  /** The scratch files of this conversion: each job has a directory of its own. */
  ghost predicate Own(c: Conversion, path: string) {
    exists index :: path == Convert.OutputPath(c.name, index)
  }

  ghost function OwnFiles(c: Conversion, scratch: Convert.Files): Convert.Files {
    map path | path in scratch && Own(c, path) :: scratch[path]
  }

  function WriterFor(c: Conversion, chunk: Chunk): Cache.Writer {
    Cache.Writer(Cache.PartOf(chunk, c.digest, c.format), Convert.OutputPath(c.name, chunk.index))
  }

  /** The copy is made by a goroutine whose call for the chunk has succeeded. */
  ghost predicate CopyOfCall(c: Conversion, d: Demux.Demux, writer: Cache.Writer) {
    exists id: nat, k: nat ::
      Convert.CallFor(c.name, c.chunks, d, id, k) && Convert.Succeeded(d, id) && writer == WriterFor(c, c.chunks[k])
  }

  /** The render that the step ends, if any. */
  ghost function Ended(s: Protocol.System, step: Protocol.Action): Option<Pool.Execution>
    requires Protocol.Enabled(s, step)
  {
    if step.InPool? then Once.Ending(s.pool, step.step) else None
  }

  /** A call is started for a chunk that has none yet. */
  ghost predicate StartsChunk(c: Conversion, d: Demux.Demux, req: Messages.Request) {
    exists k: nat :: k < |c.chunks| && req == Convert.RequestFor(c.name, c.chunks[k])
      && forall id: nat :: !Convert.CallFor(c.name, c.chunks, d, id, k)
  }

  /** A successful render writes its file; a failed one may, with any content. Other jobs keep out of this one's directory. */
  ghost predicate Enabled(c: Conversion, units: set<Cache.Unit>, j: State, a: Action) {
    match a
    case Talk(step) =>
      && Protocol.Enabled(j.s, step)
      && (step.Go? && step.go.Start? ==> StartsChunk(c, j.s.demux, step.go.req))
      && (var e := Ended(j.s, step); e.Some? && e.value.outcome.Rendered? ==> Messages.BadArgs(e.value.job.req))
    case Render(step, content) =>
      && Protocol.Enabled(j.s, step)
      && var e := Ended(j.s, step); e.Some? && Convert.Wrote(c.doc, e.value, e.value.job.req.output, content)
    case Store(act) =>
      && Cache.Enabled(units, j.store, act)
      && (act.Rewrite? ==> !Own(c, act.name))
      && (act.Create? && Own(c, act.writer.source) ==> CopyOfCall(c, j.s.demux, act.writer))
  }

  ghost function Apply(c: Conversion, units: set<Cache.Unit>, j: State, a: Action): State
    requires Enabled(c, units, j, a)
  {
    match a
    case Talk(step) => j.(s := Protocol.Apply(j.s, step))
    case Render(step, content) =>
      State(Protocol.Apply(j.s, step),
            Cache.Apply(units, j.store, Cache.Rewrite(Ended(j.s, step).value.job.req.output, content)))
    case Store(act) => j.(store := Cache.Apply(units, j.store, act))
  }

  /** What other jobs copy into the cache is right. */
  ghost predicate OthersTrusted(c: Conversion, render: Cache.Render, store: Cache.Store) {
    forall file <- store.writers.Keys :: !Own(c, store.writers[file].source) ==>
      store.writers[file].source in store.scratch && Cache.SourceOf(store, file) == render(store.writers[file].unit)
  }

  /** Nothing is assumed of this conversion's own copies. */
  ghost predicate Run(c: Conversion, units: set<Cache.Unit>, render: Cache.Render, a: State, steps: seq<Action>, b: State)
    decreases |steps|
  {
    OthersTrusted(c, render, a.store) &&
    if steps == [] then a == b
    else Enabled(c, units, a, steps[0]) && Run(c, units, render, Apply(c, units, a, steps[0]), steps[1..], b)
  }

  // ---------------------------------------------------------------- the invariant

  ghost predicate Inv(c: Conversion, j: State) {
    && Convert.CallsForPlan(c.name, c.chunks, j.s.demux)
    && Convert.ScratchOf(c.doc, j.s.pool.executed, OwnFiles(c, j.store.scratch))
    && forall file <- j.store.writers.Keys ::
         Own(c, j.store.writers[file].source) ==> CopyOfCall(c, j.s.demux, j.store.writers[file])
  }

  /** Calls keep their requests and results; only a start adds one. */
  lemma CallsStay(d: Demux.Demux, a: Demux.Action)
    requires Demux.Enabled(d, a)
    ensures var e := Demux.Apply(d, a);
      && (forall id <- d.calls.Keys :: id in e.calls && e.calls[id].req == d.calls[id].req)
      && (forall id <- d.calls.Keys, r :: Protocol.HasResult(d.calls[id], r) ==> Protocol.HasResult(e.calls[id], r))
      && (forall id <- e.calls.Keys :: id in d.calls || (a.Start? && id == a.id && e.calls[id].req == a.req))
  {
  }

  lemma CopiesStay(c: Conversion, d: Demux.Demux, a: Demux.Action, writer: Cache.Writer)
    requires Demux.Enabled(d, a) && CopyOfCall(c, d, writer)
    ensures CopyOfCall(c, Demux.Apply(d, a), writer)
  {
    hide Demux.Apply, Demux.Enabled, Convert.RequestFor, WriterFor, Protocol.HasResult;
    CallsStay(d, a);
    var id: nat, k: nat :| Convert.CallFor(c.name, c.chunks, d, id, k) && Convert.Succeeded(d, id) && writer == WriterFor(c, c.chunks[k]);
    var e := Demux.Apply(d, a);
    assert Convert.CallFor(c.name, c.chunks, e, id, k) && Convert.Succeeded(e, id);
  }

  lemma HasCallAlready(c: Conversion, d: Demux.Demux, req: Messages.Request, id: nat, k: nat)
    requires Convert.CallFor(c.name, c.chunks, d, id, k) && req == Convert.RequestFor(c.name, c.chunks[k])
    ensures !StartsChunk(c, d, req)
  {
    forall m: nat | m < |c.chunks| && req == Convert.RequestFor(c.name, c.chunks[m])
      ensures exists i: nat :: Convert.CallFor(c.name, c.chunks, d, i, m)
    {
      assert Convert.CallFor(c.name, c.chunks, d, id, m);
    }
  }

  lemma CallsStayForPlan(c: Conversion, d: Demux.Demux, a: Demux.Action)
    requires Demux.Enabled(d, a) && Convert.CallsForPlan(c.name, c.chunks, d)
    requires a.Start? ==> StartsChunk(c, d, a.req)
    ensures Convert.CallsForPlan(c.name, c.chunks, Demux.Apply(d, a))
  {
    hide Demux.Apply, Demux.Enabled, Convert.RequestFor;
    CallsStay(d, a);
    var e := Demux.Apply(d, a);
    forall id | id in e.calls ensures exists k: nat :: Convert.CallFor(c.name, c.chunks, e, id, k) {
      if id in d.calls {
        var k: nat :| Convert.CallFor(c.name, c.chunks, d, id, k);
        assert Convert.CallFor(c.name, c.chunks, e, id, k);
      } else {
        var k: nat :| k < |c.chunks| && a.req == Convert.RequestFor(c.name, c.chunks[k]);
        assert Convert.CallFor(c.name, c.chunks, e, id, k);
      }
    }
    forall x: nat, y: nat, k: nat | Convert.CallFor(c.name, c.chunks, e, x, k) && Convert.CallFor(c.name, c.chunks, e, y, k)
      ensures x == y
    {
      assert x in d.calls ==> Convert.CallFor(c.name, c.chunks, d, x, k);
      assert y in d.calls ==> Convert.CallFor(c.name, c.chunks, d, y, k);
      if (x in d.calls) != (y in d.calls) {
        HasCallAlready(c, d, a.req, if x in d.calls then x else y, k);
      }
    }
  }

  /** What the protocol's half of a step keeps. */
  lemma TalkKeepsCalls(c: Conversion, s: Protocol.System, step: Protocol.Action)
    requires Protocol.Enabled(s, step) && Convert.CallsForPlan(c.name, c.chunks, s.demux)
    requires step.Go? && step.go.Start? ==> StartsChunk(c, s.demux, step.go.req)
    ensures Convert.CallsForPlan(c.name, c.chunks, Protocol.Apply(s, step).demux)
    ensures forall writer :: CopyOfCall(c, s.demux, writer) ==> CopyOfCall(c, Protocol.Apply(s, step).demux, writer)
  {
    hide Demux.Apply, Demux.Enabled, Pool.Apply, Pool.Enabled, Convert.CallsForPlan, CopyOfCall, StartsChunk;
    if step.Go? {
      CallsStayForPlan(c, s.demux, step.go);
      forall writer | CopyOfCall(c, s.demux, writer) ensures CopyOfCall(c, Protocol.Apply(s, step).demux, writer) {
        CopiesStay(c, s.demux, step.go, writer);
      }
    }
  }

  lemma ExecutedAfter(s: Protocol.System, step: Protocol.Action)
    requires Protocol.Enabled(s, step)
    ensures Protocol.Apply(s, step).pool.executed ==
      s.pool.executed + (if Ended(s, step).Some? then {Ended(s, step).value} else {})
  {
    hide Demux.Apply, Demux.Enabled, Pool.Apply, Pool.Enabled, Once.Ending;
    if step.InPool? {
      Once.ExecutedStep(s.pool, step.step);
    }
  }

  /** The file a render writes is this conversion's own. */
  lemma RendersIntoOwn(c: Conversion, children: nat, steps: seq<Protocol.Action>, s: Protocol.System, e: Pool.Execution)
    requires Protocol.Run(Protocol.Initial(children), steps, s) && e in s.pool.executed
    requires Convert.CallsForPlan(c.name, c.chunks, s.demux)
    ensures Own(c, e.job.req.output)
  {
    hide Protocol.Run, Convert.OutputPath;
    Protocol.ExecutedForACall(children, steps, s, e);
    var id :| Protocol.WrittenBy(s.demux, e.job, id);
    var k: nat :| Convert.CallFor(c.name, c.chunks, s.demux, id, k);
    assert e.job.req.output == Convert.OutputPath(c.name, c.chunks[k].index);
  }

  lemma TalkKeepsScratch(c: Conversion, j: State, step: Protocol.Action)
    requires Protocol.Enabled(j.s, step) && Convert.ScratchOf(c.doc, j.s.pool.executed, OwnFiles(c, j.store.scratch))
    requires var e := Ended(j.s, step); e.Some? && e.value.outcome.Rendered? ==> Messages.BadArgs(e.value.job.req)
    ensures Convert.ScratchOf(c.doc, Protocol.Apply(j.s, step).pool.executed, OwnFiles(c, j.store.scratch))
  {
    hide Protocol.Apply, Protocol.Enabled, Ended, OwnFiles, Convert.Wrote;
    ExecutedAfter(j.s, step);
  }

  lemma RenderKeepsScratch(c: Conversion, executed: set<Pool.Execution>, e: Pool.Execution, scratch: Convert.Files, content: seq<Page>)
    requires Convert.ScratchOf(c.doc, executed, OwnFiles(c, scratch))
    requires Own(c, e.job.req.output) && Convert.Wrote(c.doc, e, e.job.req.output, content)
    ensures Convert.ScratchOf(c.doc, executed + {e}, OwnFiles(c, scratch[e.job.req.output := content]))
  {
    hide Convert.Wrote, Own;
    var files := OwnFiles(c, scratch[e.job.req.output := content]);
    forall path | path in files ensures exists f <- executed + {e} :: Convert.Wrote(c.doc, f, path, files[path]) {
      if path != e.job.req.output {
        var f :| f in executed && Convert.Wrote(c.doc, f, path, OwnFiles(c, scratch)[path]);
        assert f in executed + {e};
      }
    }
  }

  lemma StoreKeepsInv(c: Conversion, units: set<Cache.Unit>, j: State, act: Cache.Action)
    requires Inv(c, j) && Enabled(c, units, j, Store(act))
    ensures Inv(c, Apply(c, units, j, Store(act)))
  {
    hide Convert.CallsForPlan, Convert.ScratchOf, CopyOfCall, Own, Cache.EntryOf;
    var q := Apply(c, units, j, Store(act));
    assert OwnFiles(c, q.store.scratch) == OwnFiles(c, j.store.scratch);
  }

  lemma TalkKeepsInv(c: Conversion, units: set<Cache.Unit>, j: State, step: Protocol.Action)
    requires Inv(c, j) && Enabled(c, units, j, Talk(step))
    ensures Inv(c, Apply(c, units, j, Talk(step)))
  {
    hide Convert.CallsForPlan, Convert.ScratchOf, CopyOfCall, Own, Protocol.Apply, Protocol.Enabled, Ended, StartsChunk;
    TalkKeepsCalls(c, j.s, step);
    TalkKeepsScratch(c, j, step);
  }

  lemma RenderKeepsInv(
    c: Conversion, units: set<Cache.Unit>, children: nat, steps: seq<Protocol.Action>, j: State, step: Protocol.Action, content: seq<Page>)
    requires Protocol.Run(Protocol.Initial(children), steps, j.s)
    requires Inv(c, j) && Enabled(c, units, j, Render(step, content))
    ensures Inv(c, Apply(c, units, j, Render(step, content)))
  {
    hide Convert.CallsForPlan, Convert.ScratchOf, CopyOfCall, Own, Protocol.Apply, Protocol.Run, Convert.Wrote;
    hide Pool.Enabled, Demux.Enabled, Once.Ending;
    var e, t := Ended(j.s, step).value, Protocol.Apply(j.s, step);
    TalkKeepsCalls(c, j.s, step);
    ExecutedAfter(j.s, step);
    Protocol.RunSnoc(Protocol.Initial(children), steps, j.s, step);
    RendersIntoOwn(c, children, steps + [step], t, e);
    RenderKeepsScratch(c, j.s.pool.executed, e, j.store.scratch, content);
  }

  // ---------------------------------------------------------------- the sources can be trusted

  /** In every run, each file that is being copied into the cache holds the pages it is stored for. */
  lemma PoolSourcesAreTrusted(
    c: Conversion, render: Cache.Render, children: nat, steps: seq<Protocol.Action>, j: State)
    requires Cache.RendersSlices(c.doc, c.digest, c.format, render)
    requires Convert.Injective(c.name) && Numbered(c.chunks)
    requires Protocol.Run(Protocol.Initial(children), steps, j.s)
    requires Inv(c, j) && OthersTrusted(c, render, j.store)
    ensures Cache.Trusted(render, j.store)
  {
    hide Protocol.Run, Convert.ScratchOf, Convert.OutputPath, Slice, Convert.Succeeded, Convert.CallsForPlan, Own;
    forall file | file in j.store.writers
      ensures j.store.writers[file].source in j.store.scratch
      ensures Cache.SourceOf(j.store, file) == render(j.store.writers[file].unit)
    {
      if Own(c, j.store.writers[file].source) {
        var id: nat, k: nat :| Convert.CallFor(c.name, c.chunks, j.s.demux, id, k) && Convert.Succeeded(j.s.demux, id)
          && j.store.writers[file] == WriterFor(c, c.chunks[k]);
        Convert.SucceededFileIsRight(c.doc, c.name, c.chunks, children, steps, j.s, OwnFiles(c, j.store.scratch), id, k);
      }
    }
  }

  lemma InitialInv(c: Conversion, children: nat)
    ensures Inv(c, Initial(children))
  {
  }

  /**
   Every run of pool and cache side by side is a run of the pool's protocol, and a run of the cache
   whose sources can be trusted all the time, although any step of the one may come between two of the other.
   */
  lemma {:induction false} RunIsTrusted(
    c: Conversion, units: set<Cache.Unit>, render: Cache.Render,
    children: nat, before: seq<Protocol.Action>, a: State, steps: seq<Action>, b: State)
    returns (talk: seq<Protocol.Action>, caching: seq<Cache.Action>)
    requires Cache.RendersSlices(c.doc, c.digest, c.format, render)
    requires Convert.Injective(c.name) && Numbered(c.chunks)
    requires Protocol.Run(Protocol.Initial(children), before, a.s)
    requires Inv(c, a) && Run(c, units, render, a, steps, b)
    ensures Protocol.Run(Protocol.Initial(children), talk, b.s)
    ensures Inv(c, b) && Cache.TrustedRun(units, render, a.store, caching, b.store)
    decreases |steps|
  {
    hide Inv, OthersTrusted, Cache.RendersSlices, Convert.Injective, Numbered, Protocol.Run, Cache.Trusted;
    hide Protocol.Apply, Protocol.Enabled, Cache.Apply, Convert.Wrote, StartsChunk, CopyOfCall, Own, Ended;
    PoolSourcesAreTrusted(c, render, children, before, a);
    if steps == [] {
      talk, caching := before, [];
    } else {
      var q := Apply(c, units, a, steps[0]);
      match steps[0]
      case Talk(step) =>
        TalkKeepsInv(c, units, a, step);
        Protocol.RunSnoc(Protocol.Initial(children), before, a.s, step);
        talk, caching := RunIsTrusted(c, units, render, children, before + [step], q, steps[1..], b);
      case Render(step, content) =>
        RenderKeepsInv(c, units, children, before, a, step, content);
        Protocol.RunSnoc(Protocol.Initial(children), before, a.s, step);
        var rest;
        talk, rest := RunIsTrusted(c, units, render, children, before + [step], q, steps[1..], b);
        var rewrite := Cache.Rewrite(Ended(a.s, step).value.job.req.output, content);
        caching := [rewrite] + rest;
        assert caching[1..] == rest;
      case Store(act) =>
        StoreKeepsInv(c, units, a, act);
        var rest;
        talk, rest := RunIsTrusted(c, units, render, children, before, q, steps[1..], b);
        caching := [act] + rest;
        assert caching[1..] == rest;
    }
  }

  // ---------------------------------------------------------------- the merge

  /** A chunk's goroutine returns the file of its successful call, or the name its cache entry had. */
  ghost predicate ServedOrFound(c: Conversion, spell: Cache.Path -> string, d: Demux.Demux, g: Gather.State) {
    forall k: nat, path :: k < |c.chunks| && k < |g.finished| && g.finished[k] == Some(Gather.Ok(path)) ==>
      || path == spell(Cache.EntryOf(Cache.PartOf(c.chunks[k], c.digest, c.format)))
      || (path == Convert.OutputPath(c.name, c.chunks[k].index)
          && exists id: nat :: Convert.CallFor(c.name, c.chunks, d, id, k) && Convert.Succeeded(d, id))
  }

  /** What the merge finds: the scratch files, and of the cache what is there by then. */
  ghost predicate FoundByMerge(c: Conversion, spell: Cache.Path -> string, store: Cache.Store, files: Convert.Files) {
    && (forall path <- store.scratch.Keys :: Own(c, path) ==> path in files && files[path] == store.scratch[path])
    && (forall p: Cache.Path :: !p.Temp? && spell(p) in files ==>
          p in store.fs.names && store.fs.names[p] in store.fs.data && files[spell(p)] == store.fs.data[store.fs.names[p]])
  }

  /** Only ranges that a worker can render are ever stored for this source and format. */
  ghost predicate StoredCanBeRendered(c: Conversion, units: set<Cache.Unit>) {
    forall u <- units :: u.Part? && u.digest == c.digest && u.format == c.format ==>
      1 <= u.pageStart <= u.pageEnd && u.pageStart - 1 <= |c.doc|
  }

  /** A chunk's entry that is still there holds the chunk's pages. */
  lemma EntryHoldsChunk(
    c: Conversion, spell: Cache.Path -> string, chunk: Chunk, units: set<Cache.Unit>, render: Cache.Render,
    caching: seq<Cache.Action>, store: Cache.Store, files: Convert.Files)
    requires Cache.RendersSlices(c.doc, c.digest, c.format, render) && StoredCanBeRendered(c, units)
    requires Cache.HexDigest(c.digest) && Cache.DigestsAreHex(units)
    requires Cache.TrustedRun(units, render, Cache.EMPTY, caching, store)
    requires FoundByMerge(c, spell, store, files)
    requires spell(Cache.EntryOf(Cache.PartOf(chunk, c.digest, c.format))) in files
    ensures Convert.Holds(c.doc, files, chunk, spell(Cache.EntryOf(Cache.PartOf(chunk, c.digest, c.format))))
  {
    hide Cache.TrustedRun, Cache.KeyText, Slice, Own;
    var part := Cache.PartOf(chunk, c.digest, c.format);
    var path := Cache.EntryOf(part);
    Cache.VisibleIsComplete(units, render, caching, store, path);
    var u :| u in units && Cache.EntryOf(u) == path && store.fs.data[store.fs.names[path]] == render(u);
    Cache.KeysTellPartsApart(u, part);
  }

  lemma RenderedIsFound(c: Conversion, spell: Cache.Path -> string, chunk: Chunk, store: Cache.Store, files: Convert.Files)
    requires FoundByMerge(c, spell, store, files)
    requires Convert.Holds(c.doc, OwnFiles(c, store.scratch), chunk, Convert.OutputPath(c.name, chunk.index))
    ensures Convert.OutputPath(c.name, chunk.index) in files
    ensures Convert.Holds(c.doc, files, chunk, Convert.OutputPath(c.name, chunk.index))
  {
    hide Slice, Convert.OutputPath;
    assert Own(c, Convert.OutputPath(c.name, chunk.index));
  }

  /**
   Pool mode with the cache on: any probe, any interleaving of the pool, the cache and the
   goroutines, other jobs storing, replacing and clearing entries at any time. The output is the
   first P pages of the document, unless a cached file the conversion had been given is gone by the
   time of the merge; then the merge fails.
   */
  lemma PoolModeWithCache(
    c: Conversion, probe: ProbeResult, settings: Convert.Settings, actual: Option<int>,
    units: set<Cache.Unit>, render: Cache.Render, children: nat, steps: seq<Action>, j: State,
    gathering: seq<Gather.Action>, g: Gather.State,
    spell: Cache.Path -> string, files: Convert.Files, sorted: seq<Convert.ChunkPath>)
    requires Convert.SeamsTile(probe) || (actual.Some? && actual.value != Convert.FirstPlan(settings, probe).totalPages)
    requires Convert.Injective(c.name) && c.chunks == Convert.PoolPlan(settings, probe, actual).chunks
    requires Cache.RendersSlices(c.doc, c.digest, c.format, render) && StoredCanBeRendered(c, units)
    requires Cache.HexDigest(c.digest) && Cache.DigestsAreHex(units)
    requires Run(c, units, render, Initial(children), steps, j)
    requires Gather.Run(settings.parallel, Gather.Start(|c.chunks|), gathering, g)
    requires Gather.Returned(g) && g.firstErr.None? && !g.cancelledOutside
    requires ServedOrFound(c, spell, j.s.demux, g) && FoundByMerge(c, spell, j.store, files)
    ensures |g.out| == |c.chunks| && forall k :: 0 <= k < |g.out| ==> g.out[k].Some?
    ensures forall k :: 0 <= k < |g.out| && g.out[k].value !in files ==>
      g.out[k].value == spell(Cache.EntryOf(Cache.PartOf(c.chunks[k], c.digest, c.format)))
    ensures Convert.SortedByIndex(Convert.Collected(c.chunks, g.out), sorted) ==>
      var total := Convert.PoolPlan(settings, probe, actual).totalPages;
      Convert.Concat(files, Convert.Paths(sorted)) ==
        if total <= 0 || exists k :: 0 <= k < |g.out| && g.out[k].value !in files then None
        else Some(c.doc[..Min(total, |c.doc|)])
  {
    hide Convert.PoolPlan, Convert.FirstPlan, Slice, Convert.ScratchOf, Convert.Injective, Convert.Concat, Convert.SortedByIndex;
    hide Tiles, Numbered, Protocol.Run, Gather.Run, Gather.Returned, Gather.Start, Cache.TrustedRun, Cache.EntryOf, Convert.OutputPath;
    hide FoundByMerge, Convert.Holds, Convert.Succeeded, Cache.RendersSlices, StoredCanBeRendered, Cache.DigestsAreHex, Cache.HexDigest, Run;
    var plan := Convert.PoolPlan(settings, probe, actual);
    Convert.PoolPlanCovers(settings, probe, actual);
    Gather.ReturnIsFaithful(settings.parallel, |c.chunks|, gathering, g);
    if c.chunks != [] {
      SlotsHoldChunks(c, units, render, children, steps, j, g, spell, files);
    }
    if Convert.SortedByIndex(Convert.Collected(c.chunks, g.out), sorted) {
      Convert.MergeOfSlots(c.doc, plan, g.out, files, sorted);
    }
  }

  /** What each chunk's goroutine has returned names the chunk's pages, or a cached file that is gone. */
  lemma SlotsHoldChunks(
    c: Conversion, units: set<Cache.Unit>, render: Cache.Render, children: nat, steps: seq<Action>, j: State,
    g: Gather.State, spell: Cache.Path -> string, files: Convert.Files)
    requires Convert.Injective(c.name) && Numbered(c.chunks)
    requires Cache.RendersSlices(c.doc, c.digest, c.format, render) && StoredCanBeRendered(c, units)
    requires Cache.HexDigest(c.digest) && Cache.DigestsAreHex(units)
    requires Run(c, units, render, Initial(children), steps, j)
    requires |g.finished| == |g.out| == |c.chunks|
    requires forall k :: 0 <= k < |g.out| ==> g.out[k].Some? && g.finished[k] == Some(Gather.Ok(g.out[k].value))
    requires ServedOrFound(c, spell, j.s.demux, g) && FoundByMerge(c, spell, j.store, files)
    ensures forall k :: 0 <= k < |g.out| ==>
      if g.out[k].value in files then Convert.Holds(c.doc, files, c.chunks[k], g.out[k].value)
      else g.out[k].value == spell(Cache.EntryOf(Cache.PartOf(c.chunks[k], c.digest, c.format)))
  {
    assert Protocol.Run(Protocol.Initial(children), [], Protocol.Initial(children));
    hide Slice, Convert.ScratchOf, Convert.Injective, Numbered, Protocol.Run, Cache.TrustedRun, Cache.EntryOf, Convert.OutputPath;
    hide FoundByMerge, Convert.Holds, Convert.Succeeded, Cache.RendersSlices, StoredCanBeRendered, Cache.DigestsAreHex, Cache.HexDigest, Run;
    InitialInv(c, children);
    var talk, caching := RunIsTrusted(c, units, render, children, [], Initial(children), steps, j);
    forall k: nat | k < |g.out|
      ensures if g.out[k].value in files then Convert.Holds(c.doc, files, c.chunks[k], g.out[k].value)
        else g.out[k].value == spell(Cache.EntryOf(Cache.PartOf(c.chunks[k], c.digest, c.format)))
    {
      var path := g.out[k].value;
      if path == spell(Cache.EntryOf(Cache.PartOf(c.chunks[k], c.digest, c.format))) {
        if path in files {
          EntryHoldsChunk(c, spell, c.chunks[k], units, render, caching, j.store, files);
        }
      } else {
        var id: nat :| Convert.CallFor(c.name, c.chunks, j.s.demux, id, k) && Convert.Succeeded(j.s.demux, id);
        Convert.SucceededFileIsRight(c.doc, c.name, c.chunks, children, talk, j.s, OwnFiles(c, j.store.scratch), id, k);
        RenderedIsFound(c, spell, c.chunks[k], j.store, files);
      }
    }
  }
}
