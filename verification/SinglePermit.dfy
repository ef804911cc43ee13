/**
 The counterpart of NameClashes for a single permit: chunks are rendered one at a time, in any
 order, and only the two halves of a chunk still interleave.
 */
module SinglePermit {
  import opened Types
  import opened RenderPaths
  import opened RenderRuns
  import opened NameClashes
  import opened FinishRuns

  /** No left half is halved again, and no chunk may write the file that another chunk ends in. */
  ghost predicate ResultsStayApart(oom: Oom, plan: seq<Chunk>) {
    && (forall k :: 0 <= k < |plan| ==> RightOnly(oom, plan[k]))
    && (forall k, m :: 0 <= k < |plan| && 0 <= m < |plan| && k != m ==> !Owns(oom, plan[k], ResultPath(oom, plan[m])))
  }

  ghost predicate IsActive(node: Node) {
    node.Todo? || node.Split?
  }

  // ---------------------------------------------------------------- one at a time, files stay right

  ghost predicate OneInv(oom: Oom, plan: seq<Chunk>, j: Job) {
    && JobInv(oom, plan, j)
    && forall i, k :: 0 <= i < |plan| && 0 <= k < |plan| && i != k && IsActive(j.nodes[i]) ==> !IsActive(j.nodes[k])
  }

  lemma {:induction false} ActiveCounts(nodes: seq<Node>, k: nat)
    requires k < |nodes| && IsActive(nodes[k])
    ensures Active(nodes) >= 1
  {
    if k < |nodes| - 1 {
      ActiveCounts(nodes[..|nodes| - 1], k);
    }
  }

  /** A chunk that is not being worked on is hurt only by a write to the file it has ended in. */
  lemma RestingStaysSound(oom: Oom, node: Node, chunk: Chunk, a: Files, b: Files)
    requires StageOf(oom, node, chunk) && Sound(a, node) && !IsActive(node)
    requires SameFile(a, b, ResultPath(oom, chunk))
    ensures Sound(b, node)
  {
  }

  lemma OneInvStep(oom: Oom, plan: seq<Chunk>, j: Job, a: Action)
    requires ResultsStayApart(oom, plan) && OneInv(oom, plan, j) && Enabled(1, j, a)
    ensures OneInv(oom, plan, Apply(oom, 1, j, a))
  {
    hide StageOf, Sound, Owns, ResultPath, RightOnly, NodeApply;
    var q := Apply(oom, 1, j, a);
    if a.Begin? {
      forall k | 0 <= k < |plan| ensures !IsActive(j.nodes[k]) {
        if IsActive(j.nodes[k]) { ActiveCounts(j.nodes, k); }
      }
      forall k | 0 <= k < |plan| ensures Sound(q.files, q.nodes[k]) && StageOf(oom, q.nodes[k], plan[k]) {
        if k == a.k { BeginsSound(oom, j.files, plan[k], j.nodes[k]); }
      }
    } else {
      StepIsActive(j.files, j.nodes[a.k], a.at);
      StepStaysSound(oom, j.files, j.nodes[a.k], plan[a.k], a.at);
      forall k | 0 <= k < |plan| ensures Sound(q.files, q.nodes[k]) && StageOf(oom, q.nodes[k], plan[k]) {
        if k != a.k {
          assert !Owns(oom, plan[a.k], ResultPath(oom, plan[k]));
          RestingStaysSound(oom, j.nodes[k], plan[k], j.files, q.files);
        }
      }
    }
  }

  lemma BeginsSound(oom: Oom, files: Files, chunk: Chunk, node: Node)
    requires StageOf(oom, node, chunk)
    ensures StageOf(oom, Todo(node.chunk), chunk) && Sound(files, Todo(node.chunk))
  {
  }

  lemma StepIsActive(files: Files, node: Node, at: seq<Turn>)
    requires NodeEnabled(files, node, at)
    ensures IsActive(node)
  {
  }

  lemma {:induction false} OneInvOnRuns(oom: Oom, plan: seq<Chunk>, a: Job, steps: seq<Action>, b: Job)
    requires ResultsStayApart(oom, plan) && OneInv(oom, plan, a) && Run(oom, 1, a, steps, b)
    ensures OneInv(oom, plan, b)
    decreases |steps|
  {
    hide OneInv, ResultsStayApart;
    if steps != [] {
      OneInvStep(oom, plan, a, steps[0]);
      OneInvOnRuns(oom, plan, Apply(oom, 1, a, steps[0]), steps[1..], b);
    }
  }

  // ---------------------------------------------------------------- the exact condition

  lemma {:induction false} EarlierEndsFirst(rs: seq<Span>, i: nat, k: nat)
    requires i < k < |rs|
    requires forall j :: 0 <= j < |rs| ==> rs[j].0 <= rs[j].1
    requires forall j :: 0 < j < |rs| ==> rs[j].0 == rs[j - 1].1 + 1
    ensures rs[i].1 < rs[k].0
  {
    if i + 1 < k {
      EarlierEndsFirst(rs, i, k - 1);
    }
  }

  lemma ChunksDisjoint(plan: seq<Chunk>, pageCount: int, k: nat, m: nat)
    requires pageCount > 0 && Tiles(Spans(plan), 1, pageCount) && k < |plan| && m < |plan| && k != m
    ensures plan[k].Pages() >= 1 && plan[m].Pages() >= 1
    ensures plan[k].pageEnd < plan[m].pageStart || plan[m].pageEnd < plan[k].pageStart
  {
    var rs := Spans(plan);
    TilesToIndex(rs, 1, pageCount);
    assert rs[k] == plan[k].Span() && rs[m] == plan[m].Span();
    EarlierEndsFirst(rs, if k < m then k else m, if k < m then m else k);
  }

  /** Chunk m is finished first; chunk k then writes over its file. */
  lemma LaterOverwrites(oom: Oom, plan: seq<Chunk>, pageCount: int, k: nat, m: nat) returns (steps: seq<Action>, j: Job)
    requires Recoverable(oom) && pageCount > 0 && Tiles(Spans(plan), 1, pageCount)
    requires k < |plan| && m < |plan| && k != m && RightOnly(oom, plan[k]) && RightOnly(oom, plan[m])
    requires Owns(oom, plan[k], ResultPath(oom, plan[m]))
    ensures Run(oom, 1, Start(plan), steps, j) && !JobSound(j)
  {
    hide Run, RightOnly, Owns, NodeRun, ResultPath, FinishedFrom;
    ChunksDisjoint(plan, pageCount, k, m);
    var s := Start(plan);
    NoneActive(s.nodes);
    var steps1, s1 := FinishChunk(oom, 1, plan, s, m);
    NoneActive(s1.nodes);
    var steps2;
    steps2, j := FinishChunk(oom, 1, plan, s1, k);
    steps := steps1 + steps2;
    RunJoin(oom, 1, s, steps1, s1, steps2, j);
    FirstPage(plan[m]);
    assert StartsWithin(j.files, ResultPath(oom, plan[m]), plan[k]);
    assert !Sound(j.files, j.nodes[m]);
  }

  lemma StartIsSound(oom: Oom, plan: seq<Chunk>)
    ensures OneInv(oom, plan, Start(plan))
  {
  }

  /**
   With a single permit the files are always right if and only if no left half is halved again and
   no chunk may write the file that another chunk ends in.
   */
  lemma FilesAreRightIffResultsStayApart(oom: Oom, plan: seq<Chunk>, pageCount: int)
    requires Recoverable(oom) && pageCount > 0 && Tiles(Spans(plan), 1, pageCount)
    ensures AlwaysSound(oom, 1, plan) <==> ResultsStayApart(oom, plan)
  {
    hide Run, RightOnly, Owns, ResultPath;
    if ResultsStayApart(oom, plan) {
      forall steps, j | Run(oom, 1, Start(plan), steps, j) ensures JobSound(j) {
        StartIsSound(oom, plan);
        OneInvOnRuns(oom, plan, Start(plan), steps, j);
      }
    } else if k: nat :| k < |plan| && !RightOnly(oom, plan[k]) {
      var steps, j := ClashInPlan(oom, 1, plan, k);
      OneUnsoundRun(oom, 1, plan, steps, j);
    } else {
      var k: nat, m: nat :| k < |plan| && m < |plan| && k != m && Owns(oom, plan[k], ResultPath(oom, plan[m]));
      var steps, j := LaterOverwrites(oom, plan, pageCount, k, m);
      OneUnsoundRun(oom, 1, plan, steps, j);
    }
  }

  /** A job rendered one chunk at a time under that condition outputs the pages 1..N, once each and in order. */
  lemma FinishedOneByOneHasAllPages(oom: Oom, plan: seq<Chunk>, pageCount: int, steps: seq<Action>, j: Job)
    requires ResultsStayApart(oom, plan) && pageCount > 0 && Tiles(Spans(plan), 1, pageCount)
    requires Run(oom, 1, Start(plan), steps, j) && AllFinished(j)
    ensures Output(j.files, j.nodes) == FirstPages(pageCount)
  {
    hide ResultsStayApart, RightOnly, Owns, ResultPath;
    StartIsSound(oom, plan);
    OneInvOnRuns(oom, plan, Start(plan), steps, j);
    SoundJobHasAllPages(oom, plan, pageCount, j);
  }
}
