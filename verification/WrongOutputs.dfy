/**
 When the document a finished conversion merges can be wrong: the exact condition on the ranges
 that run out of memory. A clash of names inside one tree whose left half is halved again never
 gets that far, because the merge is refused.
 */
module WrongOutputs {
  import opened Types
  import opened Planner
  import opened RenderPaths
  import opened RenderRuns
  import opened NameClashes
  import opened FinishRuns
  import opened SinglePermit

  /** In every interleaving, a job that finishes outputs the pages 1..N, once each and in order. */
  ghost predicate OutputAlwaysRight(oom: Oom, parallel: int, plan: seq<Chunk>, pageCount: int) {
    forall steps, j :: Run(oom, parallel, Start(plan), steps, j) && AllFinished(j) ==> OutputRight(j, pageCount)
  }

  ghost predicate OutputRight(j: Job, pageCount: int)
    requires AllFinished(j)
  {
    Output(j.files, j.nodes) == FirstPages(pageCount)
  }

  lemma OneWrongRun(oom: Oom, parallel: int, plan: seq<Chunk>, pageCount: int, steps: seq<Action>, j: Job)
    requires Run(oom, parallel, Start(plan), steps, j) && AllFinished(j) && !OutputRight(j, pageCount)
    ensures !OutputAlwaysRight(oom, parallel, plan, pageCount)
  {
  }

  // ---------------------------------------------------------------- jobs that never finish

  /** What has finished in the tree was halved only to the right. */
  ghost predicate FinishedRightOnly(oom: Oom, node: Node) {
    match node
    case Finished(chunk, _) => RightOnly(oom, chunk)
    case Split(_, left, right) => FinishedRightOnly(oom, left) && FinishedRightOnly(oom, right)
    case _ => true
  }

  /**
   The merge of a chunk whose left half was halved is refused: that half's merged file has the
   name of the file to be written.
   */
  lemma {:induction false} StepFinishesRightOnly(oom: Oom, files: Files, node: Node, chunk: Chunk, at: seq<Turn>)
    requires StageOf(oom, node, chunk) && FinishedRightOnly(oom, node) && NodeEnabled(files, node, at)
    ensures var (_, node') := NodeApply(oom, files, node, at);
      StageOf(oom, node', chunk) && FinishedRightOnly(oom, node')
    decreases |at|
  {
    if at != [] {
      var half := if at[0].L? then Subdivide(chunk)[0] else Subdivide(chunk)[1];
      StepFinishesRightOnly(oom, files, Half(node, at[0]), half, at[1..]);
    }
  }

  ghost predicate StagesOf(oom: Oom, plan: seq<Chunk>, j: Job) {
    && |j.nodes| == |plan|
    && forall k :: 0 <= k < |plan| ==> StageOf(oom, j.nodes[k], plan[k]) && FinishedRightOnly(oom, j.nodes[k])
  }

  lemma StagesStep(oom: Oom, parallel: int, plan: seq<Chunk>, j: Job, a: Action)
    requires StagesOf(oom, plan, j) && Enabled(parallel, j, a)
    ensures StagesOf(oom, plan, Apply(oom, parallel, j, a))
  {
    hide FinishedRightOnly, StageOf, NodeApply;
    if a.Step? {
      StepFinishesRightOnly(oom, j.files, j.nodes[a.k], plan[a.k], a.at);
    } else {
      BeginsAsStage(oom, j.nodes[a.k], plan[a.k]);
    }
  }

  lemma BeginsAsStage(oom: Oom, node: Node, chunk: Chunk)
    requires StageOf(oom, node, chunk)
    ensures StageOf(oom, Todo(node.chunk), chunk) && FinishedRightOnly(oom, Todo(node.chunk))
  {
  }

  lemma {:induction false} StagesOnRuns(oom: Oom, parallel: int, plan: seq<Chunk>, a: Job, steps: seq<Action>, b: Job)
    requires StagesOf(oom, plan, a) && Run(oom, parallel, a, steps, b)
    ensures StagesOf(oom, plan, b)
    decreases |steps|
  {
    hide StagesOf;
    if steps != [] {
      StagesStep(oom, parallel, plan, a, steps[0]);
      StagesOnRuns(oom, parallel, plan, Apply(oom, parallel, a, steps[0]), steps[1..], b);
    }
  }

  /** A job in which a left half is halved again never finishes, whatever the interleaving. */
  lemma HalvedLeftNeverFinishes(oom: Oom, parallel: int, plan: seq<Chunk>, k: nat, steps: seq<Action>, j: Job)
    requires k < |plan| && !RightOnly(oom, plan[k])
    requires Run(oom, parallel, Start(plan), steps, j)
    ensures !AllFinished(j)
  {
    hide RightOnly;
    StagesOnRuns(oom, parallel, plan, Start(plan), steps, j);
    assert StageOf(oom, j.nodes[k], plan[k]) && FinishedRightOnly(oom, j.nodes[k]);
  }

  // ---------------------------------------------------------------- one wrong piece

  /** All chunks have ended in their files, and all but chunk k with their own pages. */
  ghost predicate AllButOne(oom: Oom, plan: seq<Chunk>, j: Job, k: nat) {
    && |j.nodes| == |plan| && k < |plan|
    && (forall i :: 0 <= i < |plan| ==> j.nodes[i] == Finished(plan[i], ResultPath(oom, plan[i])) && j.nodes[i].path in j.files)
    && (forall i :: 0 <= i < |plan| && i != k ==> j.files[j.nodes[i].path] == PagesOf(plan[i]))
    && j.files[j.nodes[k].path] != PagesOf(plan[k])
  }

  lemma {:induction false} OnePieceDiffers(a: Files, b: Files, nodes: seq<Node>, k: nat)
    requires k < |nodes|
    requires forall i :: 0 <= i < |nodes| ==> nodes[i].Finished? && nodes[i].path in a && nodes[i].path in b
    requires forall i :: 0 <= i < |nodes| && i != k ==> a[nodes[i].path] == b[nodes[i].path]
    requires a[nodes[k].path] != b[nodes[k].path]
    ensures Output(a, nodes) != Output(b, nodes)
  {
    var n := |nodes| - 1;
    if k < n {
      OnePieceDiffers(a, b, nodes[..n], k);
      AppendDiffers(Output(a, nodes[..n]), Output(b, nodes[..n]), a[nodes[n].path]);
    } else {
      SamePieces(a, b, nodes[..n]);
      PrependDiffers(Output(a, nodes[..n]), a[nodes[n].path], b[nodes[n].path]);
    }
  }

  lemma {:induction false} SamePieces(a: Files, b: Files, nodes: seq<Node>)
    requires forall i :: 0 <= i < |nodes| ==> nodes[i].Finished? && nodes[i].path in a && nodes[i].path in b && a[nodes[i].path] == b[nodes[i].path]
    ensures Output(a, nodes) == Output(b, nodes)
  {
    if nodes != [] {
      SamePieces(a, b, nodes[..|nodes| - 1]);
    }
  }

  lemma AppendDiffers(x: Content, y: Content, c: Content)
    requires x != y
    ensures x + c != y + c
  {
    if |x| == |y| {
      assert (x + c)[..|x|] == x && (y + c)[..|x|] == y;
    }
  }

  lemma PrependDiffers(c: Content, x: Content, y: Content)
    requires x != y
    ensures c + x != c + y
  {
    assert (c + x)[|c|..] == x && (c + y)[|c|..] == y;
  }

  lemma OneWrongEnd(oom: Oom, plan: seq<Chunk>, j: Job, k: nat)
    requires k < |plan| == |j.nodes|
    requires forall i :: 0 <= i < |plan| && i != k ==> EndedRight(oom, plan, j, i)
    requires j.nodes[k] == Finished(plan[k], ResultPath(oom, plan[k])) && ResultPath(oom, plan[k]) in j.files
    requires j.files[ResultPath(oom, plan[k])] != PagesOf(plan[k])
    ensures AllButOne(oom, plan, j, k)
  {
    hide ResultPath, PagesOf;
    forall i | 0 <= i < |plan|
      ensures j.nodes[i] == Finished(plan[i], ResultPath(oom, plan[i])) && j.nodes[i].path in j.files
      ensures i != k ==> j.files[j.nodes[i].path] == PagesOf(plan[i])
    {
      assert i != k ==> EndedRight(oom, plan, j, i);
    }
  }

  lemma OneWrongPieceIsWrong(oom: Oom, plan: seq<Chunk>, pageCount: int, j: Job, k: nat)
    requires Numbered(plan) && pageCount > 0 && Tiles(Spans(plan), 1, pageCount) && AllButOne(oom, plan, j, k)
    ensures AllFinished(j) && !OutputRight(j, pageCount)
  {
    hide PagesOf, FirstPages, Tiles;
    var mended := j.files[j.nodes[k].path := PagesOf(plan[k])];
    forall i | 0 <= i < |plan| ensures j.nodes[i].path in mended && mended[j.nodes[i].path] == PagesOf(plan[i]) {
      assert j.nodes[i].path.index == plan[i].index == i as real;
    }
    TilesToIndex(Spans(plan), 1, pageCount);
    assert Spans(plan)[|plan| - 1] == plan[|plan| - 1].Span();
    OutputOfCover(mended, j.nodes, plan);
    OnePieceDiffers(j.files, mended, j.nodes, k);
  }

  // ---------------------------------------------------------------- a wrong document with one permit

  lemma PlanFacts(plan: seq<Chunk>, pageCount: int)
    requires pageCount > 0 && Tiles(Spans(plan), 1, pageCount)
    ensures forall i :: 0 <= i < |plan| ==> 1 <= plan[i].pageStart <= plan[i].pageEnd
    ensures forall i :: 0 < i < |plan| ==> plan[i].pageStart == plan[i - 1].pageEnd + 1
  {
    var rs := Spans(plan);
    TilesToIndex(rs, 1, pageCount);
    SpansOfCover(plan, pageCount);
    forall i | 0 < i < |plan| ensures plan[i].pageStart == plan[i - 1].pageEnd + 1 {
      assert rs[i] == plan[i].Span() && rs[i - 1] == plan[i - 1].Span();
    }
  }

  /** Chunk m first, then all others in order: chunk k writes over the file that m has ended in. */
  lemma WrongWithOnePermit(oom: Oom, parallel: int, plan: seq<Chunk>, pageCount: int, k: nat, m: nat)
    returns (steps: seq<Action>, j: Job)
    requires Recoverable(oom) && parallel >= 1
    requires Numbered(plan) && pageCount > 0 && Tiles(Spans(plan), 1, pageCount)
    requires forall i :: 0 <= i < |plan| ==> RightOnly(oom, plan[i])
    requires k < |plan| && m < |plan| && k != m && Owns(oom, plan[k], ResultPath(oom, plan[m]))
    ensures Run(oom, parallel, Start(plan), steps, j) && AllFinished(j) && !OutputRight(j, pageCount)
  {
    hide Run, RightOnly, Owns, PagesOf, Tiles;
    PlanFacts(plan, pageCount);
    OwnsFromIndex(oom, plan[k], ResultPath(oom, plan[m]));
    var n, path := |plan|, ResultPath(oom, plan[m]);
    var s0 := Start(plan);
    NoneActive(s0.nodes);
    var steps1, s1 := FinishChunk(oom, parallel, plan, s0, m);
    var steps2, s2 := FinishRange(oom, parallel, plan, s1, 0, m);
    var steps3;
    steps3, j := FinishRange(oom, parallel, plan, s2, m + 1, n);
    RunJoin(oom, parallel, s0, steps1, s1, steps2, s2);
    steps := steps1 + steps2 + steps3;
    RunJoin(oom, parallel, s0, steps1 + steps2, s2, steps3, j);
    forall i | 0 <= i < m ensures EndedRight(oom, plan, j, i) {
      UpperLeavesAlone(oom, plan, s2, j, i, m + 1, n);
    }
    PathStaysForeign(oom, plan, pageCount, s1, s2, j, k, m);
    forall i | 0 <= i < n && i != m ensures EndedRight(oom, plan, j, i) {
    }
    assert j.nodes[m] == Finished(plan[m], path);
    OneWrongEnd(oom, plan, j, m);
    OneWrongPieceIsWrong(oom, plan, pageCount, j, m);
  }

  /** A result is not written by a range of chunks of greater index. */
  lemma UpperLeavesAlone(oom: Oom, plan: seq<Chunk>, a: Job, b: Job, k: nat, from: nat, to: nat)
    requires Numbered(plan) && k < from && to <= |plan| == |a.nodes| == |b.nodes| && k < |plan|
    requires OnlyWrittenBy(oom, plan, a, b, from, to)
    ensures SameFile(a.files, b.files, ResultPath(oom, plan[k]))
    ensures EndedRight(oom, plan, a, k) && b.nodes[k] == a.nodes[k] ==> EndedRight(oom, plan, b, k)
  {
    var path := ResultPath(oom, plan[k]);
    forall i | from <= i < to ensures !Owns(oom, plan[i], path) {
      if Owns(oom, plan[i], path) { OwnsFromIndex(oom, plan[i], path); }
    }
    assert WrittenBy(oom, plan, a, b, from, to, path);
  }

  lemma PathStaysForeign(oom: Oom, plan: seq<Chunk>, pageCount: int, s1: Job, s2: Job, s3: Job, k: nat, m: nat)
    requires Numbered(plan) && pageCount > 0 && Tiles(Spans(plan), 1, pageCount)
    requires k < m < |plan| == |s2.nodes| == |s3.nodes| && Owns(oom, plan[k], ResultPath(oom, plan[m]))
    requires OnlyWrittenBy(oom, plan, s1, s2, 0, m) && OnlyWrittenBy(oom, plan, s2, s3, m + 1, |plan|)
    ensures var path := ResultPath(oom, plan[m]); path in s3.files && s3.files[path] != PagesOf(plan[m])
  {
    hide Owns;
    var path := ResultPath(oom, plan[m]);
    assert WrittenBy(oom, plan, s1, s2, 0, m, path);
    var i: nat :| i < m && Owns(oom, plan[i], path) && StartsWithin(s2.files, path, plan[i]);
    UpperLeavesAlone(oom, plan, s2, s3, m, m + 1, |plan|);
    ChunksDisjoint(plan, pageCount, i, m);
    FirstPage(plan[m]);
  }

  /**
   With a single worker, what a finished job outputs is always right if and only if no chunk may
   write the file another chunk ends in, or some left half is halved again, in which case no job finishes.
   */
  lemma OutputRightIffOnePermit(oom: Oom, plan: seq<Chunk>, pageCount: int)
    requires Recoverable(oom) && Numbered(plan) && pageCount > 0 && Tiles(Spans(plan), 1, pageCount)
    ensures OutputAlwaysRight(oom, 1, plan, pageCount) <==>
      ResultsStayApart(oom, plan) || exists k :: 0 <= k < |plan| && !RightOnly(oom, plan[k])
  {
    hide Run, RightOnly, Owns, Tiles, Output;
    if ResultsStayApart(oom, plan) {
      forall steps, j | Run(oom, 1, Start(plan), steps, j) && AllFinished(j) ensures OutputRight(j, pageCount) {
        FinishedOneByOneHasAllPages(oom, plan, pageCount, steps, j);
      }
    } else if k: nat :| k < |plan| && !RightOnly(oom, plan[k]) {
      forall steps, j | Run(oom, 1, Start(plan), steps, j) ensures !AllFinished(j) {
        HalvedLeftNeverFinishes(oom, 1, plan, k, steps, j);
      }
    } else {
      var k: nat, m: nat :| k < |plan| && m < |plan| && k != m && Owns(oom, plan[k], ResultPath(oom, plan[m]));
      var steps, j := WrongWithOnePermit(oom, 1, plan, pageCount, k, m);
      OneWrongRun(oom, 1, plan, pageCount, steps, j);
    }
  }

  // ---------------------------------------------------------------- a wrong document with several permits

  /** Chunk k's tree, with page in one of its files that is not its own, finished before its neighbour's. */
  lemma FinishNeighbours(oom: Oom, parallel: int, plan: seq<Chunk>, j: Job, k: nat)
    returns (steps: seq<Action>, j': Job)
    requires Recoverable(oom) && parallel >= 2 && Numbered(plan) && k + 1 < |plan| == |j.nodes|
    requires forall i :: 0 <= i < |plan| ==> RightOnly(oom, plan[i]) && plan[i].Pages() >= 1
    requires Splits(oom, plan[k]) && Splits(oom, Subdivide(plan[k])[1]) && plan[k + 1].pageStart == plan[k].pageEnd + 1
    requires forall i :: 0 <= i < |plan| ==> Resting(j.nodes[i])
    requires j.nodes[k] == Waiting(plan[k]) && j.nodes[k + 1] == Waiting(plan[k + 1])
    ensures Run(oom, parallel, j, steps, j')
    ensures j'.nodes == j.nodes[k := Finished(plan[k], ResultPath(oom, plan[k]))][k + 1 := Finished(plan[k + 1], ResultPath(oom, plan[k + 1]))]
    ensures EndedRight(oom, plan, j', k + 1)
    ensures ResultPath(oom, plan[k]) in j'.files && plan[k + 1].pageStart in j'.files[ResultPath(oom, plan[k])]
    ensures forall p: Path :: p.index < plan[k].index ==> SameFile(j.files, j'.files, p)
  {
    hide Run, RightOnly, Owns, NodeRun, Descends, Splits, FinishedFrom, PagesOf, Subdivide;
    var a, b := plan[k], plan[k + 1];
    NoneActive(j.nodes);
    BegunTwo(oom, parallel, j, k);
    var s1 := j.(nodes := j.nodes[k := Todo(a)][k + 1 := Todo(b)]);
    var ats, f1, n1, at, bts, f2, n2 := ClashOfNeighbours(oom, s1.files, a, b);
    var s2 := Job(f1, s1.nodes[k := n1]);
    NodeRunInJob(oom, parallel, s1, k, ats, f1, n1);
    var steps2 := [Begin(k)] + [Begin(k + 1)] + StepsOf(k, ats);
    RunJoin(oom, parallel, j, [Begin(k)] + [Begin(k + 1)], s1, StepsOf(k, ats), s2);
    var s3 := Job(f2, s2.nodes[k + 1 := n2]);
    NodeRunInJob(oom, parallel, s2, k + 1, bts, f2, n2);
    RunJoin(oom, parallel, j, steps2, s2, StepsOf(k + 1, bts), s3);
    var cts, f3, dts, f4 := FinishBoth(oom, j.files, a, b, ats, f1, n1, at, bts, f2, n2);
    var na, nb := Finished(a, ResultPath(oom, a)), Finished(b, ResultPath(oom, b));
    var s4 := Job(f3, s3.nodes[k := na]);
    NodeRunInJob(oom, parallel, s3, k, cts, f3, na);
    RunJoin(oom, parallel, j, steps2 + StepsOf(k + 1, bts), s3, StepsOf(k, cts), s4);
    j' := Job(f4, s4.nodes[k + 1 := nb]);
    NodeRunInJob(oom, parallel, s4, k + 1, dts, f4, nb);
    steps := steps2 + StepsOf(k + 1, bts) + StepsOf(k, cts) + StepsOf(k + 1, dts);
    RunJoin(oom, parallel, j, steps2 + StepsOf(k + 1, bts) + StepsOf(k, cts), s4, StepsOf(k + 1, dts), j');
  }

  /** The same on the two trees: the first ends with the foreign page, the second with its own pages. */
  lemma FinishBoth(oom: Oom, f0: Files, a: Chunk, b: Chunk, ats: seq<seq<Turn>>, f1: Files, n1: Node, at: seq<Turn>, bts: seq<seq<Turn>>, f2: Files, n2: Node)
    returns (cts: seq<seq<Turn>>, f3: Files, dts: seq<seq<Turn>>, f4: Files)
    requires Recoverable(oom) && RightOnly(oom, a) && RightOnly(oom, b) && a.Pages() >= 1 && b.Pages() >= 1
    requires b.index == a.index + 1.0
    requires NodeRun(oom, f0, Todo(a), ats, f1, n1) && Live(f1, n1)
    requires NodeRun(oom, f1, Todo(b), bts, f2, n2) && Live(f2, n2) && UsesOnly(n2, ChunkFile(b.index))
    requires LeafAt(n1, at, b.index, NodeAt(n1, at).chunk.pageStart) && FileStarts(f2, b.index, b.pageStart)
    ensures NodeRun(oom, f2, n1, cts, f3, Finished(a, ResultPath(oom, a)))
    ensures NodeRun(oom, f3, n2, dts, f4, Finished(b, ResultPath(oom, b)))
    ensures ResultPath(oom, a) in f4 && b.pageStart in f4[ResultPath(oom, a)]
    ensures ResultPath(oom, b) in f4 && f4[ResultPath(oom, b)] == PagesOf(b)
    ensures forall p: Path :: p.index < a.index ==> SameFile(f0, f4, p)
  {
    hide RightOnly, Owns, NodeRun, FinishedFrom, PagesOf;
    TodoIsStage(oom, f0, a);
    TodoIsStage(oom, f1, b);
    NodeRunStaysSound(oom, f0, Todo(a), a, ats, f1, n1);
    NodeRunStaysSound(oom, f1, Todo(b), b, bts, f2, n2);
    NodeRunGrows(oom, f1, Todo(b), bts, f2, n2);
    LiveInMore(f1, f2, n1);
    PlaceCarries(f2, n1, at, b.pageStart);
    cts, f3 := FinishRest(oom, f2, n1, a, b.pageStart);
    FinishedFromStage(oom, f2, n1, a, f3, b.pageStart);
    FinishedIsLeftAlone(oom, n1, a, at);
    UsesOnlyOne(n2, ChunkFile(b.index));
    UsesFrame(f2, f3, n2, 0);
    dts, f4 := FinishRest(oom, f3, n2, b, 0);
    FinishedFromStage(oom, f3, n2, b, f4, 0);
    forall p: Path | p.index < b.index ensures SameFile(f1, f2, p) && SameFile(f3, f4, p) {
      LowIndexNotOwned(oom, b, p);
    }
    forall p: Path | p.index < a.index ensures SameFile(f0, f4, p) {
      LowIndexNotOwned(oom, a, p);
    }
  }

  lemma LowIndexNotOwned(oom: Oom, chunk: Chunk, path: Path)
    requires path.index < chunk.index
    ensures !Owns(oom, chunk, path)
  {
    if Owns(oom, chunk, path) { OwnsFromIndex(oom, chunk, path); }
  }

  lemma FinishedFromStage(oom: Oom, files: Files, node: Node, chunk: Chunk, files': Files, page: int)
    requires StageOf(oom, node, chunk) && FinishedFrom(oom, files, node, chunk, files', page)
    ensures var path := ResultPath(oom, chunk);
      && path in files'
      && (Carries(files, node, page) ==> page in files'[path])
      && (Sound(files, node) ==> files'[path] == PagesOf(chunk))
    ensures forall p :: !StillWrites(oom, node, p) ==> SameFile(files, files', p)
    ensures forall p :: !Owns(oom, chunk, p) ==> SameFile(files, files', p)
  {
    hide Owns;
    forall p | !Owns(oom, chunk, p) ensures SameFile(files, files', p) {
      StageOwns(oom, node, chunk, p);
    }
  }

  lemma {:induction false} NodeRunGrows(oom: Oom, files: Files, node: Node, ats: seq<seq<Turn>>, files': Files, node': Node)
    requires NodeRun(oom, files, node, ats, files', node')
    ensures files.Keys <= files'.Keys
    decreases |ats|
  {
    if ats != [] {
      var (f, n) := NodeApply(oom, files, node, ats[0]);
      StepGrows(oom, files, node, ats[0]);
      NodeRunGrows(oom, f, n, ats[1..], files', node');
    }
  }

  lemma {:induction false} StepGrows(oom: Oom, files: Files, node: Node, at: seq<Turn>)
    requires NodeEnabled(files, node, at)
    ensures files.Keys <= NodeApply(oom, files, node, at).0.Keys
    decreases |at|
  {
    if at != [] {
      StepGrows(oom, files, Half(node, at[0]), at[1..]);
    }
  }

  lemma {:induction false} LiveInMore(a: Files, b: Files, node: Node)
    requires Live(a, node) && a.Keys <= b.Keys
    ensures Live(b, node)
  {
    if node.Split? {
      LiveInMore(a, b, node.left);
      LiveInMore(a, b, node.right);
    }
  }

  lemma {:induction false} PlaceCarries(files: Files, node: Node, at: seq<Turn>, page: int)
    requires IsPlace(node, at) && NodeAt(node, at).Finished?
    requires NodeAt(node, at).path in files && page in files[NodeAt(node, at).path]
    ensures Carries(files, node, page)
    decreases |at|
  {
    if at != [] {
      PlaceCarries(files, Half(node, at[0]), at[1..], page);
    }
  }

  lemma {:induction false} UsesOnlyOne(node: Node, path: Path)
    requires UsesOnly(node, path)
    ensures forall p :: Uses(node, p) ==> p == path
  {
    if node.Split? {
      UsesOnlyOne(node.left, path);
      UsesOnlyOne(node.right, path);
    }
  }

  /** Everything before chunk k in order, then k and its neighbour with the clash, then the rest in order. */
  lemma WrongWithTwoPermits(oom: Oom, parallel: int, plan: seq<Chunk>, pageCount: int, k: nat)
    returns (steps: seq<Action>, j: Job)
    requires Recoverable(oom) && parallel >= 2
    requires Numbered(plan) && pageCount > 0 && Tiles(Spans(plan), 1, pageCount)
    requires forall i :: 0 <= i < |plan| ==> RightOnly(oom, plan[i])
    requires k + 1 < |plan| && Splits(oom, plan[k]) && Splits(oom, Subdivide(plan[k])[1])
    ensures Run(oom, parallel, Start(plan), steps, j) && AllFinished(j) && !OutputRight(j, pageCount)
  {
    hide Run, RightOnly, Owns, PagesOf, Tiles, Splits, Subdivide;
    PlanFacts(plan, pageCount);
    var n := |plan|;
    var s0 := Start(plan);
    var steps1, s1 := FinishRange(oom, parallel, plan, s0, 0, k);
    var steps2, s2 := FinishNeighbours(oom, parallel, plan, s1, k);
    var steps3;
    steps3, j := FinishRange(oom, parallel, plan, s2, k + 2, n);
    RunJoin(oom, parallel, s0, steps1, s1, steps2, s2);
    steps := steps1 + steps2 + steps3;
    RunJoin(oom, parallel, s0, steps1 + steps2, s2, steps3, j);
    forall i | 0 <= i < n && i != k ensures EndedRight(oom, plan, j, i) {
      if i < k + 2 {
        if i < k { assert plan[i].index < plan[k].index; }
        UpperLeavesAlone(oom, plan, s2, j, i, k + 2, n);
      }
    }
    UpperLeavesAlone(oom, plan, s2, j, k, k + 2, n);
    ForeignPage(plan[k], plan[k + 1].pageStart);
    assert j.nodes[k] == Finished(plan[k], ResultPath(oom, plan[k]));
    OneWrongEnd(oom, plan, j, k);
    OneWrongPieceIsWrong(oom, plan, pageCount, j, k);
  }

  lemma ForeignPage(chunk: Chunk, page: int)
    requires page > chunk.pageEnd
    ensures page !in PagesOf(chunk)
  {
  }

  /**
   With two or more workers, what a finished job outputs is always right if and only if the names
   stay apart, or some left half is halved again, in which case no job finishes.
   */
  lemma OutputRightIffSeveralPermits(oom: Oom, parallel: int, plan: seq<Chunk>, pageCount: int)
    requires Recoverable(oom) && parallel >= 2
    requires Numbered(plan) && pageCount > 0 && Tiles(Spans(plan), 1, pageCount)
    ensures OutputAlwaysRight(oom, parallel, plan, pageCount) <==>
      NamesStayApart(oom, plan) || exists k :: 0 <= k < |plan| && !RightOnly(oom, plan[k])
  {
    hide Run, RightOnly, Tiles, Output;
    if NamesStayApart(oom, plan) {
      forall steps, j | Run(oom, parallel, Start(plan), steps, j) && AllFinished(j) ensures OutputRight(j, pageCount) {
        FinishedJobHasAllPages(oom, parallel, plan, pageCount, steps, j);
      }
    } else if k: nat :| k < |plan| && !RightOnly(oom, plan[k]) {
      forall steps, j | Run(oom, parallel, Start(plan), steps, j) ensures !AllFinished(j) {
        HalvedLeftNeverFinishes(oom, parallel, plan, k, steps, j);
      }
    } else {
      var k: nat :| k + 1 < |plan| && Splits(oom, plan[k]) && Splits(oom, Subdivide(plan[k])[1]);
      var steps, j := WrongWithTwoPermits(oom, parallel, plan, pageCount, k);
      OneWrongRun(oom, parallel, plan, pageCount, steps, j);
    }
  }
}
