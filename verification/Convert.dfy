/**
 A whole conversion: plan, dispatch to a pool or to one process a chunk, put the results in order,
 merge. In pool mode the output pages are the document's pages; with one process a chunk they are
 when the names of the scratch files stay apart: see RenderPaths.NamesStayApart and OneShotFiles.
 The cache is off here; PoolWithCache.PoolModeWithCache adds it.
 */
module Convert {
  import opened Basics
  import opened Types
  import opened PageSplit
  import opened Planner
  import opened PdfPages
  import opened PoolProtocol
  import Gather = RenderAll
  import Tree = RenderTree
  import Protocol = ForkProtocol
  import Pool = ForkPool
  import Demux = ReplyDemux

  datatype Settings = Settings(
    parallel: int, workerRAMBytes: int, maxPagesPerChunk: int, maxMBPerChunk: int,
    xlsxMinPagesPerChunk: int, pptxMinPagesPerChunk: int)

  /** The adaptive size, capped by the settings; spreadsheets and slides have a minimum of their own. */
  function EffectiveMaxPages(settings: Settings, probe: ProbeResult): int {
    var pages := Min(AdaptiveMaxPages(probe, settings.workerRAMBytes, settings.parallel, 0, 0), settings.maxPagesPerChunk);
    match probe.format
    case XLSX => Max(pages, settings.xlsxMinPagesPerChunk)
    case PPTX => Max(pages, settings.pptxMinPagesPerChunk)
    case _ => pages
  }

  function FirstPlan(settings: Settings, probe: ProbeResult): ChunkPlan {
    PlanChunks(probe, EffectiveMaxPages(settings, probe), settings.maxMBPerChunk)
  }

  /**
   Spreadsheets keep their own minimum and slides theirs; beyond it, and for all other formats, the
   limit is neither above the adaptive size nor above the configured one.
   */
  lemma LimitKeepsMinimum(settings: Settings, probe: ProbeResult)
    ensures var limit := EffectiveMaxPages(settings, probe);
      var least := if probe.format == XLSX then Some(settings.xlsxMinPagesPerChunk)
        else if probe.format == PPTX then Some(settings.pptxMinPagesPerChunk) else None;
      var most := Min(AdaptiveMaxPages(probe, settings.workerRAMBytes, settings.parallel, 0, 0), settings.maxPagesPerChunk);
      && (least.Some? ==> limit >= least.value)
      && (least.None? || limit > least.value ==> limit <= settings.maxPagesPerChunk)
      && (least.None? || most >= least.value ==> limit == most)
  {
    hide AdaptiveMaxPages;
  }

  /** A pool that reports another page count than planned for makes the plan anew, without the seams. */
  function PoolPlan(settings: Settings, probe: ProbeResult, actual: Option<int>): ChunkPlan {
    var plan := FirstPlan(settings, probe);
    if actual.Some? && actual.value != plan.totalPages then
      PlanChunks(ProbeResult(actual.value, probe.format, [], probe.sizeBytes),
                 EffectiveMaxPages(settings, probe), settings.maxMBPerChunk)
    else plan
  }

  /** Seams are absent, or tile the pages the probe counted. */
  ghost predicate SeamsTile(probe: ProbeResult) {
    probe.naturalSeams == [] || Tiles(probe.naturalSeams, 1, probe.pageCount)
  }

  /** Whatever the estimate, the pool's plan covers the pages it plans for, and plans for the reported count. */
  lemma PoolPlanCovers(settings: Settings, probe: ProbeResult, actual: Option<int>)
    requires SeamsTile(probe) || (actual.Some? && actual.value != FirstPlan(settings, probe).totalPages)
    ensures var plan := PoolPlan(settings, probe, actual);
      && (plan.chunks == [] <==> plan.totalPages <= 0)
      && (plan.chunks != [] ==> Tiles(Spans(plan.chunks), 1, plan.totalPages) && Numbered(plan.chunks))
      && (actual.Some? && actual.value > 0 ==> plan.totalPages == actual.value)
  {
    hide SplitPlan, AdaptiveMaxPages, EffectiveMaxPages;
    var limit := EffectiveMaxPages(settings, probe);
    var plan := FirstPlan(settings, probe);
    if actual.Some? && actual.value != plan.totalPages {
      var again := ProbeResult(actual.value, probe.format, [], probe.sizeBytes);
      if actual.value > 0 {
        PlanIsExactCover(again, limit, settings.maxMBPerChunk);
      }
    } else if probe.pageCount > 0 {
      PlanIsExactCover(probe, limit, settings.maxMBPerChunk);
    }
  }

  /** The document as the pool planned for it. */
  function PlannedFor(settings: Settings, probe: ProbeResult, actual: Option<int>): ProbeResult {
    if actual.Some? && actual.value != FirstPlan(settings, probe).totalPages
    then ProbeResult(actual.value, probe.format, [], probe.sizeBytes) else probe
  }

  /** Every chunk of the pool's plan is a single page or keeps within 1.5 times both limits, with the sizes estimated anew. */
  lemma PoolPlanKeepsLimits(settings: Settings, probe: ProbeResult, actual: Option<int>)
    requires SeamsTile(probe) || (actual.Some? && actual.value != FirstPlan(settings, probe).totalPages)
    ensures var limit := EffectiveMaxPages(settings, probe);
      forall c <- PoolPlan(settings, probe, actual).chunks ::
        c.Pages() == 1 || WithinRelaxedLimits(PlannedFor(settings, probe, actual), c, limit, settings.maxMBPerChunk)
  {
    hide SplitPlan, AdaptiveMaxPages, EffectiveMaxPages, EstimateChunkMB;
    var planned := PlannedFor(settings, probe, actual);
    if planned.pageCount > 0 {
      PlanIsExactCover(planned, EffectiveMaxPages(settings, probe), settings.maxMBPerChunk);
      var plan := PoolPlan(settings, probe, actual);
      SpansOfCover(plan.chunks, planned.pageCount);
      forall c | c in plan.chunks && Allowed(planned, c.Span(), EffectiveMaxPages(settings, probe), settings.maxMBPerChunk)
        ensures c.Pages() == 1 || WithinRelaxedLimits(planned, c, EffectiveMaxPages(settings, probe), settings.maxMBPerChunk)
      {
        EstimateIsPositive(planned, c.Pages());
      }
    }
  }

  lemma EstimateIsPositive(probe: ProbeResult, pages: int)
    ensures Estimate(probe, pages) >= 0.0
  {
    if probe.pageCount > 0 && pages > 0 {
      EstimateIsQuotient(probe, pages);
    }
  }

  // ---------------------------------------------------------------- order and merge

  datatype ChunkPath = ChunkPath(chunk: Chunk, path: string)

  type Files = map<string, seq<Page>>

  /** The sort is not stable: all that is known is that the result is ascending and a permutation. */
  ghost predicate SortedByIndex(before: seq<ChunkPath>, after: seq<ChunkPath>) {
    && multiset(after) == multiset(before)
    && forall i, j :: 0 <= i < j < |after| ==> after[i].chunk.index <= after[j].chunk.index
  }

  ghost predicate IndexAscends(rendered: seq<ChunkPath>) {
    forall i, j :: 0 <= i < j < |rendered| ==> rendered[i].chunk.index < rendered[j].chunk.index
  }

  lemma TakeFirst(s: seq<ChunkPath>)
    requires s != []
    ensures multiset(s) == multiset{s[0]} + multiset(s[1..])
  {
    assert s == [s[0]] + s[1..];
  }

  /** Sorting results that are already in strictly ascending order leaves them as they are. */
  lemma {:induction false} SortChangesNothing(before: seq<ChunkPath>, after: seq<ChunkPath>)
    requires IndexAscends(before) && SortedByIndex(before, after)
    ensures after == before
  {
    assert |after| == |multiset(after)| == |multiset(before)| == |before|;
    if before != [] {
      assert after[0] in multiset(after) && before[0] in multiset(before);
      assert after[0] in before && before[0] in after;
      assert after[0] == before[0];
      TakeFirst(before);
      TakeFirst(after);
      assert multiset(after[1..]) == multiset(after) - multiset{after[0]};
      SortChangesNothing(before[1..], after[1..]);
    }
  }

  function Paths(rendered: seq<ChunkPath>): seq<string> {
    seq(|rendered|, i requires 0 <= i < |rendered| => rendered[i].path)
  }

  function Joined(files: Files, paths: seq<string>): seq<Page>
    requires forall p <- paths :: p in files
  {
    if paths == [] then [] else Joined(files, paths[..|paths| - 1]) + files[paths[|paths| - 1]]
  }

  /** An empty list of files is an error, as is a missing one. */
  function Concat(files: Files, paths: seq<string>): Option<seq<Page>> {
    if paths != [] && forall p <- paths :: p in files then Some(Joined(files, paths)) else None
  }

  lemma NothingToConcat(files: Files, rendered: seq<ChunkPath>)
    requires rendered == []
    ensures Concat(files, Paths(rendered)) == None
  {
  }

  /** The file is there and holds the chunk's pages. */
  ghost predicate Holds(doc: seq<Page>, files: Files, chunk: Chunk, path: string) {
    && path in files && 1 <= chunk.pageStart <= chunk.pageEnd && chunk.pageStart - 1 <= |doc|
    && files[path] == Slice(doc, chunk.pageStart, chunk.pageEnd)
  }

  /** Files that hold the chunks of a cover concatenate to the first pages of the document. */
  lemma JoinedIsPlanPages(doc: seq<Page>, chunks: seq<Chunk>, files: Files, paths: seq<string>)
    requires |paths| == |chunks|
    requires forall k :: 0 <= k < |chunks| ==> Holds(doc, files, chunks[k], paths[k])
    ensures (forall c <- chunks :: 1 <= c.pageStart <= c.pageEnd && c.pageStart - 1 <= |doc|)
    ensures (forall p <- paths :: p in files)
    ensures Joined(files, paths) == Tree.PlanPages(doc, chunks)
  {
    if paths != [] {
      JoinedIsPlanPages(doc, chunks[..|chunks| - 1], files, paths[..|paths| - 1]);
    }
  }

  // ---------------------------------------------------------------- pool mode

  /** The scratch directory, and how an index is spelled in a file name. */
  datatype Spelling = Spelling(dir: string, index: real -> string)

  predicate Whole(x: real) {
    x == x.Floor as real
  }

  /** The indices that a plan gives out are spelled apart. */
  ghost predicate Injective(name: Spelling) {
    forall a, b :: Whole(a) && Whole(b) && name.index(a) == name.index(b) ==> a == b
  }

  function OutputPath(name: Spelling, index: real): string {
    name.dir + "/chunk-" + name.index(index) + ".pdf"
  }

  function RequestFor(name: Spelling, chunk: Chunk): Request {
    Request(chunk.pageStart, chunk.pageEnd, OutputPath(name, chunk.index))
  }

  lemma OutputNamesChunk(name: Spelling, a: Chunk, b: Chunk)
    requires Injective(name) && Whole(a.index) && Whole(b.index)
    requires RequestFor(name, a).output == RequestFor(name, b).output
    ensures a.index == b.index
  {
    var x, y := name.index(a.index), name.index(b.index);
    var before := name.dir + "/chunk-";
    assert (before + x + ".pdf")[|before|..][..|x|] == x;
    assert (before + y + ".pdf")[|before|..][..|y|] == y;
  }

  /** Call id is a call for chunk k. */
  ghost predicate CallFor(name: Spelling, chunks: seq<Chunk>, d: Demux.Demux, id: nat, k: nat) {
    id in d.calls && k < |chunks| && d.calls[id].req == RequestFor(name, chunks[k])
  }

  ghost predicate Succeeded(d: Demux.Demux, id: nat) {
    id in d.calls && exists seqNo, output :: Protocol.HasResult(d.calls[id], Demux.Got(Demux.FromWorker(Done(seqNo, output))))
  }

  /** Every call is for a chunk of the plan, and no chunk has two. */
  ghost predicate CallsForPlan(name: Spelling, chunks: seq<Chunk>, d: Demux.Demux) {
    && (forall id <- d.calls.Keys :: exists k: nat :: CallFor(name, chunks, d, id, k))
    && forall i, j, k: nat :: CallFor(name, chunks, d, i, k) && CallFor(name, chunks, d, j, k) ==> i == j
  }

  /**
   The goroutines of renderAll and the calls of the pool are the same thing seen from both sides:
   every call is for a chunk of the plan, and a goroutine returns its chunk's path, without error,
   only when a call for its chunk has succeeded.
   */
  ghost predicate CallsServe(name: Spelling, chunks: seq<Chunk>, d: Demux.Demux, g: Gather.State) {
    && CallsForPlan(name, chunks, d)
    && forall k, path :: 0 <= k < |chunks| && k < |g.finished| && g.finished[k] == Some(Gather.Ok(path)) ==>
         path == RequestFor(name, chunks[k]).output && exists id: nat :: CallFor(name, chunks, d, id, k) && Succeeded(d, id)
  }

  /** This content may be what a render left in this file: its range, or anything if it failed. */
  ghost predicate Wrote(doc: seq<Page>, e: Pool.Execution, path: string, content: seq<Page>) {
    && !BadArgs(e.job.req) && e.job.req.output == path
    && (e.outcome.Rendered? ==>
          && e.job.req.pageStart - 1 <= |doc|
          && content == Slice(doc, e.job.req.pageStart, e.job.req.pageEnd))
  }

  /** The scratch directory after these renders, in any order: every file is what one of them wrote. */
  ghost predicate ScratchOf(doc: seq<Page>, executed: set<Pool.Execution>, files: Files) {
    && (forall e <- executed :: e.outcome.Rendered? && !BadArgs(e.job.req) ==> e.job.req.output in files)
    && (forall path <- files.Keys :: exists e <- executed :: Wrote(doc, e, path, files[path]))
  }

  /** In every run of the pool, the file of a chunk whose call has succeeded holds the chunk's pages. */
  lemma SucceededFileIsRight(
    doc: seq<Page>, name: Spelling, chunks: seq<Chunk>, children: nat, steps: seq<Protocol.Action>, s: Protocol.System,
    files: Files, id: nat, k: nat)
    requires Injective(name) && Numbered(chunks)
    requires Protocol.Run(Protocol.Initial(children), steps, s)
    requires CallsForPlan(name, chunks, s.demux) && ScratchOf(doc, s.pool.executed, files)
    requires CallFor(name, chunks, s.demux, id, k) && Succeeded(s.demux, id)
    ensures Holds(doc, files, chunks[k], OutputPath(name, chunks[k].index))
  {
    hide Slice, OutputPath;
    var path := OutputPath(name, chunks[k].index);
    var seqNo, output :| Protocol.HasResult(s.demux.calls[id], Demux.Got(Demux.FromWorker(Done(seqNo, output))));
    Protocol.SuccessMeansRendered(children, steps, s, id, seqNo, output);
    var own := Pool.Execution(Protocol.JobOf(s.demux.calls[id]), Rendered);
    assert own in s.pool.executed && path in files;
    var e :| e in s.pool.executed && Wrote(doc, e, path, files[path]);
    Protocol.ExecutedForACall(children, steps, s, e);
    var writer :| Protocol.WrittenBy(s.demux, e.job, writer);
    var j: nat :| CallFor(name, chunks, s.demux, writer, j);
    OutputNamesChunk(name, chunks[j], chunks[k]);
    assert j == k && writer == id;
    Protocol.ExecutedAtMostOnce(children, steps, s, e, own);
  }

  /** And so does the file of a chunk that renderAll was told is rendered. */
  lemma ChunkFileIsRight(
    doc: seq<Page>, name: Spelling, chunks: seq<Chunk>, children: nat, steps: seq<Protocol.Action>, s: Protocol.System,
    g: Gather.State, files: Files, k: nat, path: string)
    requires Injective(name) && Numbered(chunks)
    requires Protocol.Run(Protocol.Initial(children), steps, s)
    requires CallsServe(name, chunks, s.demux, g) && ScratchOf(doc, s.pool.executed, files)
    requires k < |chunks| && k < |g.finished| && g.finished[k] == Some(Gather.Ok(path))
    ensures Holds(doc, files, chunks[k], path)
  {
    hide Slice, OutputPath, Protocol.Run, Succeeded, ScratchOf;
    var id: nat :| CallFor(name, chunks, s.demux, id, k) && Succeeded(s.demux, id);
    SucceededFileIsRight(doc, name, chunks, children, steps, s, files, id, k);
  }

  function Collected(chunks: seq<Chunk>, out: seq<Option<string>>): seq<ChunkPath>
    requires |out| == |chunks|
    requires forall k :: 0 <= k < |out| ==> out[k].Some?
  {
    seq(|chunks|, k requires 0 <= k < |chunks| => ChunkPath(chunks[k], out[k].value))
  }

  lemma CollectedAscends(chunks: seq<Chunk>, out: seq<Option<string>>)
    requires |out| == |chunks| && Numbered(chunks)
    requires forall k :: 0 <= k < |out| ==> out[k].Some?
    ensures IndexAscends(Collected(chunks, out))
  {
  }

  /**
   Pool mode. For every probe, right or wrong, every interleaving of callers, reader, leader,
   children and renderAll's goroutines, and every order the sort may produce: if renderAll returns
   without an error and the caller did not cancel, the merge of a non-empty plan succeeds and gives
   the first P pages of the document, P being the planned count; the whole document when the pool
   reported its page count.
   */
  lemma PoolModeKeepsPages(
    doc: seq<Page>, probe: ProbeResult, settings: Settings, actual: Option<int>, name: Spelling,
    children: nat, steps: seq<Protocol.Action>, s: Protocol.System,
    gathering: seq<Gather.Action>, g: Gather.State, files: Files, sorted: seq<ChunkPath>)
    requires SeamsTile(probe) || (actual.Some? && actual.value != FirstPlan(settings, probe).totalPages)
    requires Injective(name)
    requires Protocol.Run(Protocol.Initial(children), steps, s)
    requires Gather.Run(settings.parallel, Gather.Start(|PoolPlan(settings, probe, actual).chunks|), gathering, g)
    requires Gather.Returned(g) && g.firstErr.None? && !g.cancelledOutside
    requires CallsServe(name, PoolPlan(settings, probe, actual).chunks, s.demux, g)
    requires ScratchOf(doc, s.pool.executed, files)
    ensures var plan := PoolPlan(settings, probe, actual);
      && |g.out| == |plan.chunks|
      && (forall k :: 0 <= k < |g.out| ==> g.out[k].Some?)
      && (SortedByIndex(Collected(plan.chunks, g.out), sorted) ==>
            && Concat(files, Paths(sorted)) == (if plan.totalPages <= 0 then None else Some(doc[..Min(plan.totalPages, |doc|)]))
            && (actual == Some(|doc|) && |doc| > 0 ==> Concat(files, Paths(sorted)) == Some(doc)))
  {
    hide PoolPlan, FirstPlan, Slice, CallsServe, ScratchOf, Injective, Concat, SortedByIndex, Tiles, Numbered;
    hide Protocol.Run, Gather.Run, Gather.Returned, Gather.Start;
    var plan := PoolPlan(settings, probe, actual);
    PoolPlanCovers(settings, probe, actual);
    Gather.ReturnIsFaithful(settings.parallel, |plan.chunks|, gathering, g);
    if SortedByIndex(Collected(plan.chunks, g.out), sorted) {
      forall k | 0 <= k < |plan.chunks| ensures Holds(doc, files, plan.chunks[k], g.out[k].value) {
        ChunkFileIsRight(doc, name, plan.chunks, children, steps, s, g, files, k, g.out[k].value);
      }
      MergeOfSlots(doc, plan, g.out, files, sorted);
      assert doc[..|doc|] == doc;
    }
  }

  /** When the files that are there hold their chunks, the merge gives the planned pages, or fails for want of a file. */
  lemma MergeOfSlots(doc: seq<Page>, plan: ChunkPlan, out: seq<Option<string>>, files: Files, sorted: seq<ChunkPath>)
    requires plan.chunks == [] <==> plan.totalPages <= 0
    requires plan.chunks != [] ==> Tiles(Spans(plan.chunks), 1, plan.totalPages) && Numbered(plan.chunks)
    requires |out| == |plan.chunks| && forall k :: 0 <= k < |out| ==> out[k].Some?
    requires SortedByIndex(Collected(plan.chunks, out), sorted)
    requires forall k :: 0 <= k < |out| && out[k].value in files ==> Holds(doc, files, plan.chunks[k], out[k].value)
    ensures Concat(files, Paths(sorted)) ==
      if plan.totalPages <= 0 || exists k :: 0 <= k < |out| && out[k].value !in files then None
      else Some(doc[..Min(plan.totalPages, |doc|)])
  {
    hide Slice, SortedByIndex, IndexAscends, Tiles, Numbered;
    CollectedAscends(plan.chunks, out);
    SortChangesNothing(Collected(plan.chunks, out), sorted);
    if plan.totalPages <= 0 {
      NothingToConcat(files, sorted);
    } else if k :| 0 <= k < |out| && out[k].value !in files {
      assert Paths(sorted)[k] == out[k].value && Paths(sorted)[k] in Paths(sorted);
    } else {
      forall k | 0 <= k < |out| ensures Holds(doc, files, plan.chunks[k], Paths(sorted)[k]) {
      }
      CoveringFilesJoin(doc, plan.chunks, plan.totalPages, files, Paths(sorted));
    }
  }

  lemma CoveringFilesJoin(doc: seq<Page>, chunks: seq<Chunk>, total: int, files: Files, paths: seq<string>)
    requires chunks != [] && Tiles(Spans(chunks), 1, total) && |paths| == |chunks|
    requires forall k :: 0 <= k < |chunks| ==> Holds(doc, files, chunks[k], paths[k])
    ensures total >= 1 && Concat(files, paths) == Some(doc[..Min(total, |doc|)])
  {
    hide Slice;
    TilesToIndex(Spans(chunks), 1, total);
    assert Spans(chunks)[|chunks| - 1] == chunks[|chunks| - 1].Span();
    JoinedIsPlanPages(doc, chunks, files, paths);
    Tree.CoverRebuildsDocument(doc, chunks);
  }

  // ---------------------------------------------------------------- one-shot mode

  /**
   One process a chunk, by page interval: true of the code while its scratch files stay apart, see
   OneShotFiles.ConversionRightIffFilesStayApart. The conversion succeeds exactly when the plan is not empty and every chunk
   can be rendered, whole or in halves; the output is then the first P pages of the document, P
   being the probed count, so all of it exactly when the probe did not count too few.
   */
  method OneShotMode(probe: ProbeResult, settings: Settings, job: Tree.Job) returns (output: Option<seq<Page>>)
    requires SeamsTile(probe) && Tree.Honest(job.doc, job.worker, job.cached)
    requires job.rendered == job.subdivisions == job.cacheHits == 0
    modifies job
    ensures output.Some? <==>
      probe.pageCount > 0 && forall c <- FirstPlan(settings, probe).chunks :: Tree.Renders(job.worker, job.cached, c)
    ensures output.Some? ==> output.value == job.doc[..Min(probe.pageCount, |job.doc|)]
    ensures output.Some? ==> (output.value == job.doc <==> probe.pageCount >= |job.doc|)
    ensures output.Some? ==>
      var t := Tree.PlanTally(job.worker, job.cached, FirstPlan(settings, probe).chunks);
      && job.cacheHits == t.hits && job.rendered == t.renders && job.subdivisions == t.halvings
      && t.hits + t.renders == t.halvings + |FirstPlan(settings, probe).chunks|
  {
    hide PlanChunks, EffectiveMaxPages, Tree.TallyOf, Tree.PlanTally, Tree.Renders;
    var plan := FirstPlan(settings, probe);
    if probe.pageCount <= 0 {
      return None;
    }
    PlanIsExactCover(probe, EffectiveMaxPages(settings, probe), settings.maxMBPerChunk);
    var ok, pages := Tree.DispatchOneShot(job, plan.chunks, probe.pageCount);
    Tree.PlanTallyBalances(job.worker, job.cached, plan.chunks);
    output := if ok then Some(pages) else None;
  }
}
