/**
 A conversion with one process a chunk, through its scratch files: when it can succeed, and when
 what it outputs is the document, for every estimate, every plan and every interleaving.
 */
module OneShotFiles {
  import opened Basics
  import opened Types
  import opened Planner
  import opened PdfPages
  import opened RenderPaths
  import opened RenderRuns
  import opened FinishRuns
  import opened SinglePermit
  import opened WrongOutputs
  import Convert
  import RenderAll

  // ---------------------------------------------------------------- from page numbers to pages

  /** The pages with these numbers. */
  function PagesOfDoc(doc: seq<Page>, numbers: Content): seq<Page> {
    if numbers == [] then []
    else
      var last := numbers[|numbers| - 1];
      PagesOfDoc(doc, numbers[..|numbers| - 1]) + (if 1 <= last <= |doc| then [doc[last - 1]] else [])
  }

  lemma {:induction false} PagesAreSlice(doc: seq<Page>, chunk: Chunk)
    requires 1 <= chunk.pageStart <= chunk.pageEnd && chunk.pageStart - 1 <= |doc|
    ensures PagesOfDoc(doc, PagesOf(chunk)) == Slice(doc, chunk.pageStart, chunk.pageEnd)
    decreases chunk.Pages()
  {
    var numbers := PagesOf(chunk);
    var front := numbers[..|numbers| - 1];
    if chunk.Pages() == 1 {
      assert front == [];
    } else {
      var shorter := chunk.(pageEnd := chunk.pageEnd - 1);
      assert front == PagesOf(shorter);
      PagesAreSlice(doc, shorter);
    }
  }

  /** An output of the pages 1..N is the document's first N pages. */
  lemma RightOutputIsDocument(doc: seq<Page>, pageCount: int, j: Job)
    requires pageCount > 0 && AllFinished(j) && OutputRight(j, pageCount)
    ensures PagesOfDoc(doc, Output(j.files, j.nodes)) == doc[..Min(pageCount, |doc|)]
  {
    PagesAreSlice(doc, Chunk(0.0, 1, pageCount, false));
  }

  // ---------------------------------------------------------------- when a job can finish

  ghost predicate AllRightOnly(oom: Oom, plan: seq<Chunk>) {
    forall k :: 0 <= k < |plan| ==> RightOnly(oom, plan[k])
  }

  ghost predicate CanFinish(oom: Oom, parallel: int, plan: seq<Chunk>) {
    exists steps, j :: Run(oom, parallel, Start(plan), steps, j) && AllFinished(j)
  }

  /** No part of the tree has failed. */
  ghost predicate Unbroken(node: Node) {
    match node
    case Broken(_, _) => false
    case Split(_, left, right) => Unbroken(left) && Unbroken(right)
    case _ => true
  }

  ghost predicate NothingFails(oom: Oom, parallel: int, plan: seq<Chunk>) {
    forall steps, j :: Run(oom, parallel, Start(plan), steps, j) ==> forall node <- j.nodes :: Unbroken(node)
  }

  /** A step on a chunk that is halved only to the right does not fail, whatever other chunks do to its files. */
  lemma {:induction false} StepDoesNotFail(oom: Oom, files: Files, node: Node, chunk: Chunk, at: seq<Turn>)
    requires Recoverable(oom) && RightOnly(oom, chunk) && chunk.Pages() >= 1
    requires StageOf(oom, node, chunk) && Unbroken(node) && NodeEnabled(files, node, at)
    ensures var (_, node') := NodeApply(oom, files, node, at);
      StageOf(oom, node', chunk) && Unbroken(node')
    decreases |at|
  {
    if at != [] {
      var half := if at[0].L? then Subdivide(chunk)[0] else Subdivide(chunk)[1];
      OneHalfIsRightOnly(oom, Subdivide(chunk)[0]);
      StepDoesNotFail(oom, files, Half(node, at[0]), half, at[1..]);
    } else if node.Split? {
      MergeOfHalves(oom, files, node, chunk);
    } else if chunk.Pages() == 1 {
      assert chunk.Span() == (chunk.pageStart, chunk.pageStart);
    }
  }

  ghost predicate UnbrokenStages(oom: Oom, plan: seq<Chunk>, j: Job) {
    && |j.nodes| == |plan|
    && forall k :: 0 <= k < |plan| ==> StageOf(oom, j.nodes[k], plan[k]) && Unbroken(j.nodes[k])
  }

  lemma {:induction false} UnbrokenOnRuns(oom: Oom, parallel: int, plan: seq<Chunk>, a: Job, steps: seq<Action>, b: Job)
    requires Recoverable(oom) && AllRightOnly(oom, plan) && forall k :: 0 <= k < |plan| ==> plan[k].Pages() >= 1
    requires UnbrokenStages(oom, plan, a) && Run(oom, parallel, a, steps, b)
    ensures UnbrokenStages(oom, plan, b)
    decreases |steps|
  {
    hide RightOnly, StageOf, Unbroken, NodeApply, NodeEnabled;
    if steps != [] {
      var next := Apply(oom, parallel, a, steps[0]);
      var k := steps[0].k;
      if steps[0].Step? {
        StepDoesNotFail(oom, a.files, a.nodes[k], plan[k], steps[0].at);
      } else {
        BeginsUnbroken(oom, a.nodes[k], plan[k]);
      }
      UnbrokenOnRuns(oom, parallel, plan, next, steps[1..], b);
    }
  }

  lemma BeginsUnbroken(oom: Oom, node: Node, chunk: Chunk)
    requires StageOf(oom, node, chunk)
    ensures StageOf(oom, Todo(node.chunk), chunk) && Unbroken(Todo(node.chunk))
  {
  }

  /** Rendering one chunk after another is a run that finishes. */
  lemma OneAfterAnotherFinishes(oom: Oom, parallel: int, plan: seq<Chunk>)
    requires Recoverable(oom) && parallel >= 1 && Numbered(plan) && AllRightOnly(oom, plan)
    requires forall k :: 0 <= k < |plan| ==> plan[k].Pages() >= 1
    ensures CanFinish(oom, parallel, plan)
  {
    hide Run, RightOnly, ResultPath, PagesOf, OnlyWrittenBy;
    var steps, j := FinishRange(oom, parallel, plan, Start(plan), 0, |plan|);
    forall k | 0 <= k < |j.nodes| ensures j.nodes[k].Finished? && j.nodes[k].path in j.files {
      assert EndedRight(oom, plan, j, k);
    }
  }

  /**
   When single pages always fit, a job can finish if and only if no left half is halved again; then
   nothing in it ever fails, and otherwise it finishes in no interleaving.
   */
  lemma FinishesIffRightOnly(oom: Oom, parallel: int, plan: seq<Chunk>, pageCount: int)
    requires Recoverable(oom) && parallel >= 1
    requires Numbered(plan) && pageCount > 0 && Tiles(Spans(plan), 1, pageCount)
    ensures CanFinish(oom, parallel, plan) <==> AllRightOnly(oom, plan)
    ensures AllRightOnly(oom, plan) ==> NothingFails(oom, parallel, plan)
  {
    hide Run, RightOnly, StageOf, Unbroken, Tiles;
    PlanFacts(plan, pageCount);
    if AllRightOnly(oom, plan) {
      OneAfterAnotherFinishes(oom, parallel, plan);
      forall steps, j | Run(oom, parallel, Start(plan), steps, j) ensures forall node <- j.nodes :: Unbroken(node) {
        StartIsUnbroken(oom, plan);
        UnbrokenOnRuns(oom, parallel, plan, Start(plan), steps, j);
      }
    } else {
      var k: nat :| k < |plan| && !RightOnly(oom, plan[k]);
      forall steps, j | Run(oom, parallel, Start(plan), steps, j) ensures !AllFinished(j) {
        HalvedLeftNeverFinishes(oom, parallel, plan, k, steps, j);
      }
    }
  }

  lemma StartIsUnbroken(oom: Oom, plan: seq<Chunk>)
    ensures UnbrokenStages(oom, plan, Start(plan))
  {
  }

  // ---------------------------------------------------------------- the whole conversion

  /** Names stay apart as far as this many workers need. */
  ghost predicate FilesStayApart(oom: Oom, permits: int, plan: seq<Chunk>) {
    if permits >= 2 then NamesStayApart(oom, plan) else ResultsStayApart(oom, plan)
  }

  /**
   One process a chunk, any probe and settings, every interleaving. A finished conversion always
   outputs the document's first N pages if and only if no chunk writes a file that another still
   needs, or it cannot finish at all; it can finish if and only if no left half is halved again.
   So it can succeed, and only rightly, exactly when the files stay apart.
   */
  lemma ConversionRightIffFilesStayApart(probe: ProbeResult, settings: Convert.Settings, oom: Oom)
    requires Convert.SeamsTile(probe) && probe.pageCount > 0 && Recoverable(oom)
    ensures var plan, permits := Convert.FirstPlan(settings, probe).chunks, RenderAll.Permits(settings.parallel);
      && (CanFinish(oom, permits, plan) <==> AllRightOnly(oom, plan))
      && (CanFinish(oom, permits, plan) ==> NothingFails(oom, permits, plan))
      && (OutputAlwaysRight(oom, permits, plan, probe.pageCount) <==>
            FilesStayApart(oom, permits, plan) || !AllRightOnly(oom, plan))
      && (CanFinish(oom, permits, plan) && OutputAlwaysRight(oom, permits, plan, probe.pageCount) <==>
            FilesStayApart(oom, permits, plan))
  {
    hide PlanChunks, Convert.EffectiveMaxPages, Run, RightOnly, Tiles, OutputAlwaysRight, NothingFails, CanFinish;
    var plan, permits := Convert.FirstPlan(settings, probe).chunks, RenderAll.Permits(settings.parallel);
    PlanIsExactCover(probe, Convert.EffectiveMaxPages(settings, probe), settings.maxMBPerChunk);
    FinishesIffRightOnly(oom, permits, plan, probe.pageCount);
    if permits >= 2 {
      OutputRightIffSeveralPermits(oom, permits, plan, probe.pageCount);
    } else {
      OutputRightIffOnePermit(oom, plan, probe.pageCount);
    }
  }
}
