/** Bringing chunks that are halved only to the right to their end, one tree at a time. */
module FinishRuns {
  import opened Types
  import opened Planner
  import opened RenderPaths
  import opened RenderRuns
  import opened NameClashes

  lemma {:induction false} NodeRunStaysSound(oom: Oom, files: Files, node: Node, chunk: Chunk, ats: seq<seq<Turn>>, files': Files, node': Node)
    requires StageOf(oom, node, chunk) && RightOnly(oom, chunk) && Sound(files, node)
    requires NodeRun(oom, files, node, ats, files', node')
    ensures StageOf(oom, node', chunk) && Sound(files', node')
    ensures forall path :: !Owns(oom, chunk, path) ==> SameFile(files, files', path)
    decreases |ats|
  {
    hide StageOf, Sound, RightOnly, Owns;
    if ats != [] {
      var (f, n) := NodeApply(oom, files, node, ats[0]);
      StepStaysSound(oom, files, node, chunk, ats[0]);
      NodeRunStaysSound(oom, f, n, chunk, ats[1..], files', node');
    }
  }

  /** The files the unfinished parts of the tree may still write. */
  ghost predicate StillWrites(oom: Oom, node: Node, path: Path) {
    match node
    case Todo(chunk) => Owns(oom, chunk, path)
    case Split(chunk, left, right) =>
      path == MergedFile(chunk.index) || StillWrites(oom, left, path) || StillWrites(oom, right, path)
    case _ => false
  }

  ghost predicate Uses(node: Node, path: Path) {
    match node
    case Finished(_, p) => p == path
    case Split(_, left, right) => Uses(left, path) || Uses(right, path)
    case _ => false
  }

  /** A finished part of the tree has this page in its file. */
  ghost predicate Carries(files: Files, node: Node, page: int) {
    match node
    case Finished(_, path) => path in files && page in files[path]
    case Split(_, left, right) => Carries(files, left, page) || Carries(files, right, page)
    case _ => false
  }

  /** The file starts with one of the chunk's pages. */
  ghost predicate StartsWithin(files: Files, path: Path, chunk: Chunk) {
    path in files && files[path] != [] && chunk.pageStart <= files[path][0] <= chunk.pageEnd
  }

  lemma {:induction false} StageOwns(oom: Oom, node: Node, chunk: Chunk, path: Path)
    requires StageOf(oom, node, chunk)
    ensures Uses(node, path) || StillWrites(oom, node, path) ==> Owns(oom, chunk, path)
    decreases node
  {
    match node
    case Finished(_, _) => ResultIsOwned(oom, chunk);
    case Split(_, left, right) =>
      StageOwns(oom, left, Subdivide(chunk)[0], path);
      StageOwns(oom, right, Subdivide(chunk)[1], path);
    case _ =>
  }

  lemma ResultIsOwned(oom: Oom, chunk: Chunk)
    ensures Owns(oom, chunk, ResultPath(oom, chunk))
  {
  }

  /** What lies in the files of the finished parts matters, and nothing else. */
  lemma {:induction false} UsesFrame(a: Files, b: Files, node: Node, page: int)
    requires forall path :: Uses(node, path) ==> SameFile(a, b, path)
    ensures Sound(a, node) ==> Sound(b, node)
    ensures Live(a, node) ==> Live(b, node)
    ensures Carries(a, node, page) <==> Carries(b, node, page)
    decreases node
  {
    match node
    case Finished(_, path) => assert Uses(node, path);
    case Split(_, left, right) =>
      assert forall path :: Uses(left, path) || Uses(right, path) ==> Uses(node, path);
      UsesFrame(a, b, left, page);
      UsesFrame(a, b, right, page);
    case _ =>
  }

  /** In a tree halved only to the right, the file of a finished part is not written again. */
  lemma {:induction false} FinishedIsLeftAlone(oom: Oom, node: Node, chunk: Chunk, at: seq<Turn>)
    requires StageOf(oom, node, chunk) && RightOnly(oom, chunk) && IsPlace(node, at) && NodeAt(node, at).Finished?
    ensures !StillWrites(oom, node, NodeAt(node, at).path)
    decreases |at|
  {
    if at != [] {
      var path := NodeAt(node, at).path;
      var left, right := Subdivide(chunk)[0], Subdivide(chunk)[1];
      var half := if at[0].L? then left else right;
      if at[0].L? { OneHalfIsRightOnly(oom, left); }
      FinishedIsLeftAlone(oom, Half(node, at[0]), half, at[1..]);
      PlaceIsUsed(Half(node, at[0]), at[1..]);
      StageOwns(oom, node.left, left, path);
      StageOwns(oom, node.right, right, path);
      HalvesApart(oom, chunk, path);
    }
  }

  lemma {:induction false} PlaceIsUsed(node: Node, at: seq<Turn>)
    requires IsPlace(node, at) && NodeAt(node, at).Finished?
    ensures Uses(node, NodeAt(node, at).path)
    decreases |at|
  {
    if at != [] {
      PlaceIsUsed(Half(node, at[0]), at[1..]);
    }
  }

  lemma OneHalfIsRightOnly(oom: Oom, chunk: Chunk)
    requires !Splits(oom, chunk)
    ensures RightOnly(oom, chunk)
  {
  }

  /** What finishing a tree from some stage on comes to. */
  ghost predicate FinishedFrom(oom: Oom, files: Files, node: Node, chunk: Chunk, files': Files, page: int) {
    var path := ResultPath(oom, chunk);
    && path in files'
    && (Carries(files, node, page) ==> page in files'[path])
    && (forall p :: !StillWrites(oom, node, p) ==> SameFile(files, files', p))
    && (Sound(files, node) ==> files'[path] == PagesOf(chunk))
    && (Sound(files, node) ==> forall p :: StillWrites(oom, node, p) ==> StartsWithin(files', p, chunk))
  }

  /**
   A stage of a chunk halved only to the right can be brought to its end. Pages already in the
   files of its finished parts, its own or not, end up in the result.
   */
  lemma {:induction false} FinishRest(oom: Oom, files: Files, node: Node, chunk: Chunk, page: int)
    returns (ats: seq<seq<Turn>>, files': Files)
    requires Recoverable(oom) && RightOnly(oom, chunk) && chunk.Pages() >= 1
    requires StageOf(oom, node, chunk) && Live(files, node)
    ensures NodeRun(oom, files, node, ats, files', Finished(chunk, ResultPath(oom, chunk)))
    ensures FinishedFrom(oom, files, node, chunk, files', page)
    decreases chunk.Pages(), if node.Todo? then 1 else 0
  {
    match node
    case Finished(_, _) =>
      ats, files' := [], files;
    case Todo(_) =>
      if chunk.Pages() == 1 {
        assert chunk.Span() == (chunk.pageStart, chunk.pageStart);
        assert !oom(chunk.Span());
      }
      var (f, n) := Render(oom, files, chunk);
      NodeStep(oom, files, node, f, n);
      if Splits(oom, chunk) {
        var rest;
        rest, files' := FinishRest(oom, f, n, chunk, page);
        NodeRunJoin(oom, files, node, [[]], f, n, rest, files', Finished(chunk, ResultPath(oom, chunk)));
        ats := [[]] + rest;
        FinishedFromBegun(oom, f, chunk, files', page);
      } else {
        ats, files' := [[]], f;
        RenderedFromStart(oom, files, chunk, page);
      }
    case Split(_, _, _) =>
      ats, files' := FinishHalves(oom, files, node, chunk, page);
  }

  lemma RenderedFromStart(oom: Oom, files: Files, chunk: Chunk, page: int)
    requires !Splits(oom, chunk) && chunk.Pages() >= 1
    ensures FinishedFrom(oom, files, Todo(chunk), chunk, files[ChunkFile(chunk.index) := PagesOf(chunk)], page)
  {
    FirstPage(chunk);
  }

  lemma FirstPage(chunk: Chunk)
    requires chunk.Pages() >= 1
    ensures PagesOf(chunk) != [] && PagesOf(chunk)[0] == chunk.pageStart
  {
  }

  lemma FinishedFromBegun(oom: Oom, files: Files, chunk: Chunk, files': Files, page: int)
    requires Splits(oom, chunk)
    requires FinishedFrom(oom, files, Split(chunk, Todo(Subdivide(chunk)[0]), Todo(Subdivide(chunk)[1])), chunk, files', page)
    ensures FinishedFrom(oom, files, Todo(chunk), chunk, files', page)
  {
    var l, r := Todo(Subdivide(chunk)[0]), Todo(Subdivide(chunk)[1]);
    var n := Split(chunk, l, r);
    assert Sound(files, l) && Sound(files, r) && Sound(files, n);
    forall p ensures StillWrites(oom, n, p) <==> StillWrites(oom, Todo(chunk), p) {
      assert StillWrites(oom, l, p) <==> Owns(oom, l.chunk, p);
      assert StillWrites(oom, r, p) <==> Owns(oom, r.chunk, p);
    }
  }

  lemma FinishHalves(oom: Oom, files: Files, node: Node, chunk: Chunk, page: int)
    returns (ats: seq<seq<Turn>>, files': Files)
    requires Recoverable(oom) && RightOnly(oom, chunk) && chunk.Pages() >= 1
    requires StageOf(oom, node, chunk) && Live(files, node) && node.Split?
    ensures NodeRun(oom, files, node, ats, files', Finished(chunk, ResultPath(oom, chunk)))
    ensures FinishedFrom(oom, files, node, chunk, files', page)
    decreases chunk.Pages(), 0, 0
  {
    var left, right := Subdivide(chunk)[0], Subdivide(chunk)[1];
    OneHalfIsRightOnly(oom, left);
    var l, r := Finished(left, ResultPath(oom, left)), Finished(right, ResultPath(oom, right));
    var lts, f1 := FinishRest(oom, files, node.left, left, page);
    NodeRunBelow(oom, files, node, L, lts, f1, l);
    var n1 := WithHalf(node, L, l);
    RightUntouched(oom, files, f1, node, chunk, page);
    var rts, f2 := FinishRest(oom, f1, node.right, right, page);
    NodeRunBelow(oom, f1, n1, R, rts, f2, r);
    var n2 := WithHalf(n1, R, r);
    NodeRunJoin(oom, files, node, Below(L, lts), f1, n1, Below(R, rts), f2, n2);
    LeftUntouched(oom, f1, f2, node, chunk);
    MergeOfHalves(oom, f2, n2, chunk);
    var (f3, n3) := Merge(f2, n2);
    NodeStep(oom, f2, n2, f3, n3);
    NodeRunJoin(oom, files, node, Below(L, lts) + Below(R, rts), f2, n2, [[]], f3, n3);
    ats, files' := Below(L, lts) + Below(R, rts) + [[]], f3;
    FinishedFromHalves(oom, files, f1, f2, f3, node, chunk, page);
  }

  /** Finishing the left half leaves the right one's files alone. */
  lemma RightUntouched(oom: Oom, a: Files, b: Files, node: Node, chunk: Chunk, page: int)
    requires RightOnly(oom, chunk) && StageOf(oom, node, chunk) && node.Split?
    requires forall p :: !StillWrites(oom, node.left, p) ==> SameFile(a, b, p)
    ensures Live(a, node.right) ==> Live(b, node.right)
    ensures Sound(a, node.right) ==> Sound(b, node.right)
    ensures Carries(a, node.right, page) <==> Carries(b, node.right, page)
    ensures forall p :: StillWrites(oom, node.left, p) ==> !StillWrites(oom, node.right, p)
  {
    var left, right := Subdivide(chunk)[0], Subdivide(chunk)[1];
    forall p ensures Uses(node.right, p) || StillWrites(oom, node.right, p) ==> !StillWrites(oom, node.left, p) {
      StageOwns(oom, node.left, left, p);
      StageOwns(oom, node.right, right, p);
      HalvesApart(oom, chunk, p);
    }
    UsesFrame(a, b, node.right, page);
  }

  /** And finishing the right half leaves the left one's result alone. */
  lemma LeftUntouched(oom: Oom, a: Files, b: Files, node: Node, chunk: Chunk)
    requires RightOnly(oom, chunk) && StageOf(oom, node, chunk) && node.Split?
    requires forall p :: !StillWrites(oom, node.right, p) ==> SameFile(a, b, p)
    ensures SameFile(a, b, ResultPath(oom, Subdivide(chunk)[0]))
  {
    var left, right := Subdivide(chunk)[0], Subdivide(chunk)[1];
    var p := ResultPath(oom, left);
    ResultIsOwned(oom, left);
    StageOwns(oom, node.right, right, p);
    HalvesApart(oom, chunk, p);
  }

  /** The merge of a chunk halved only to the right is not refused. */
  lemma MergeOfHalves(oom: Oom, files: Files, node: Node, chunk: Chunk)
    requires RightOnly(oom, chunk) && Splits(oom, chunk) && node.Split? && node.chunk == chunk
    requires node.left == Finished(Subdivide(chunk)[0], ResultPath(oom, Subdivide(chunk)[0]))
    requires node.right == Finished(Subdivide(chunk)[1], ResultPath(oom, Subdivide(chunk)[1]))
    requires node.left.path in files && node.right.path in files
    ensures Merge(files, node) ==
      (files[MergedFile(chunk.index) := files[node.left.path] + files[node.right.path]], Finished(chunk, ResultPath(oom, chunk)))
  {
    ResultIsOwned(oom, Subdivide(chunk)[0]);
    ResultIsOwned(oom, Subdivide(chunk)[1]);
    HalvesApart(oom, chunk, MergedFile(chunk.index));
  }

  lemma FinishedFromHalves(oom: Oom, f0: Files, f1: Files, f2: Files, f3: Files, node: Node, chunk: Chunk, page: int)
    requires RightOnly(oom, chunk) && StageOf(oom, node, chunk) && node.Split?
    requires FinishedFrom(oom, f0, node.left, Subdivide(chunk)[0], f1, page)
    requires FinishedFrom(oom, f1, node.right, Subdivide(chunk)[1], f2, page)
    requires var lp, rp := ResultPath(oom, Subdivide(chunk)[0]), ResultPath(oom, Subdivide(chunk)[1]);
      lp in f2 && rp in f2 && f3 == f2[MergedFile(chunk.index) := f2[lp] + f2[rp]]
    requires SameFile(f1, f2, ResultPath(oom, Subdivide(chunk)[0]))
    ensures FinishedFrom(oom, f0, node, chunk, f3, page)
  {
    var left, right := Subdivide(chunk)[0], Subdivide(chunk)[1];
    hide Owns, RightOnly, PagesOf;
    RightUntouched(oom, f0, f1, node, chunk, page);
    HalvesJoin(chunk);
    assert Splits(oom, chunk);
    assert ResultPath(oom, chunk) == MergedFile(chunk.index);
    assert Sound(f0, node) ==> Sound(f0, node.left) && Sound(f0, node.right);
    assert Sound(f0, node) ==> f3[MergedFile(chunk.index)] == PagesOf(chunk);
    assert Carries(f0, node, page) ==> page in f3[MergedFile(chunk.index)];
    forall p | !StillWrites(oom, node, p) ensures SameFile(f0, f3, p) {
      assert !StillWrites(oom, node.left, p) && !StillWrites(oom, node.right, p);
      assert SameFile(f0, f1, p) && SameFile(f1, f2, p);
    }
    if Sound(f0, node) {
      forall p | StillWrites(oom, node, p) ensures StartsWithin(f3, p, chunk) {
        HalfWrites(oom, f1, f2, node, chunk, p);
        FirstPage(Subdivide(chunk)[0]);
      }
    }
  }

  /** A file still to be written, but for the merged one, has been written by one of the halves. */
  lemma HalfWrites(oom: Oom, f1: Files, f2: Files, node: Node, chunk: Chunk, p: Path)
    requires RightOnly(oom, chunk) && StageOf(oom, node, chunk) && node.Split? && StillWrites(oom, node, p)
    requires StillWrites(oom, node.left, p) ==> StartsWithin(f1, p, Subdivide(chunk)[0])
    requires StillWrites(oom, node.right, p) ==> StartsWithin(f2, p, Subdivide(chunk)[1])
    requires !StillWrites(oom, node.right, p) ==> SameFile(f1, f2, p)
    ensures p == MergedFile(chunk.index) || StartsWithin(f2, p, chunk)
  {
    if p != MergedFile(chunk.index) && StillWrites(oom, node.left, p) {
      StageOwns(oom, node.left, Subdivide(chunk)[0], p);
      StageOwns(oom, node.right, Subdivide(chunk)[1], p);
      HalvesApart(oom, chunk, p);
    }
  }

  lemma HalvesJoin(chunk: Chunk)
    requires chunk.Pages() >= 2
    ensures PagesOf(Subdivide(chunk)[0]) + PagesOf(Subdivide(chunk)[1]) == PagesOf(chunk)
  {
  }

  // ---------------------------------------------------------------- one chunk after another

  /** A waiting chunk, begun and brought to its end while no other is active. */
  lemma FinishChunk(oom: Oom, parallel: int, plan: seq<Chunk>, j: Job, k: nat) returns (steps: seq<Action>, j': Job)
    requires Recoverable(oom) && k < |plan| == |j.nodes| && RightOnly(oom, plan[k]) && plan[k].Pages() >= 1
    requires j.nodes[k] == Waiting(plan[k]) && Active(j.nodes) < parallel
    ensures Run(oom, parallel, j, steps, j')
    ensures j'.nodes == j.nodes[k := Finished(plan[k], ResultPath(oom, plan[k]))]
    ensures ResultPath(oom, plan[k]) in j'.files && j'.files[ResultPath(oom, plan[k])] == PagesOf(plan[k])
    ensures forall p :: !Owns(oom, plan[k], p) ==> SameFile(j.files, j'.files, p)
    ensures forall p :: Owns(oom, plan[k], p) ==> StartsWithin(j'.files, p, plan[k])
  {
    hide Run, RightOnly, Owns, NodeRun, ResultPath, FinishedFrom;
    Begun(oom, parallel, j, k);
    var s1 := j.(nodes := j.nodes[k := Todo(plan[k])]);
    TodoIsStage(oom, j.files, plan[k]);
    var ats, f := FinishRest(oom, s1.files, s1.nodes[k], plan[k], 0);
    FinishedFromTodo(oom, s1.files, plan[k], f);
    NodeRunInJob(oom, parallel, s1, k, ats, f, Finished(plan[k], ResultPath(oom, plan[k])));
    j' := Job(f, s1.nodes[k := Finished(plan[k], ResultPath(oom, plan[k]))]);
    steps := [Begin(k)] + StepsOf(k, ats);
    RunJoin(oom, parallel, j, [Begin(k)], s1, StepsOf(k, ats), j');
  }

  lemma TodoIsStage(oom: Oom, files: Files, chunk: Chunk)
    ensures StageOf(oom, Todo(chunk), chunk) && Live(files, Todo(chunk)) && Sound(files, Todo(chunk))
  {
  }

  lemma FinishedFromTodo(oom: Oom, files: Files, chunk: Chunk, files': Files)
    requires FinishedFrom(oom, files, Todo(chunk), chunk, files', 0)
    ensures ResultPath(oom, chunk) in files' && files'[ResultPath(oom, chunk)] == PagesOf(chunk)
    ensures forall p :: !Owns(oom, chunk, p) ==> SameFile(files, files', p)
    ensures forall p :: Owns(oom, chunk, p) ==> StartsWithin(files', p, chunk)
  {
    hide Owns;
    forall p ensures StillWrites(oom, Todo(chunk), p) <==> Owns(oom, chunk, p) {
    }
  }

  ghost predicate Resting(node: Node) {
    node.Waiting? || node.Finished?
  }

  /** Chunk k has ended in its own file, with its own pages. */
  ghost predicate EndedRight(oom: Oom, plan: seq<Chunk>, j: Job, k: nat)
    requires k < |plan| == |j.nodes|
  {
    var path := ResultPath(oom, plan[k]);
    j.nodes[k] == Finished(plan[k], path) && path in j.files && j.files[path] == PagesOf(plan[k])
  }

  /** A path is as it was, or one of the chunks from..to has written it. */
  ghost predicate WrittenBy(oom: Oom, plan: seq<Chunk>, a: Job, b: Job, from: nat, to: nat, p: Path)
    requires to <= |plan|
  {
    if exists i :: from <= i < to && Owns(oom, plan[i], p)
    then exists i :: from <= i < to && Owns(oom, plan[i], p) && StartsWithin(b.files, p, plan[i])
    else SameFile(a.files, b.files, p)
  }

  ghost predicate OnlyWrittenBy(oom: Oom, plan: seq<Chunk>, a: Job, b: Job, from: nat, to: nat)
    requires to <= |plan|
  {
    forall p :: WrittenBy(oom, plan, a, b, from, to, p)
  }

  /**
   Chunks from..to, waiting, rendered one after the other in ascending order: each ends with its
   own pages, whatever is in the files before, because a chunk writes no file of a smaller index.
   */
  lemma {:induction false} FinishRange(oom: Oom, parallel: int, plan: seq<Chunk>, j: Job, from: nat, to: nat)
    returns (steps: seq<Action>, j': Job)
    requires Recoverable(oom) && parallel >= 1 && Numbered(plan)
    requires from <= to <= |plan| == |j.nodes|
    requires forall i :: 0 <= i < |plan| ==> RightOnly(oom, plan[i]) && plan[i].Pages() >= 1
    requires forall i :: 0 <= i < |plan| ==> Resting(j.nodes[i])
    requires forall i :: from <= i < to ==> j.nodes[i] == Waiting(plan[i])
    ensures Run(oom, parallel, j, steps, j') && |j'.nodes| == |plan|
    ensures forall i :: 0 <= i < |plan| ==> if from <= i < to then EndedRight(oom, plan, j', i) else j'.nodes[i] == j.nodes[i]
    ensures OnlyWrittenBy(oom, plan, j, j', from, to)
    decreases |plan| - from
  {
    hide Run, RightOnly, Owns, ResultPath, PagesOf, StartsWithin;
    if from == to {
      steps, j' := [], j;
      NothingRun(oom, parallel, j);
    } else {
      NoneActive(j.nodes);
      var steps1, j1 := FinishChunk(oom, parallel, plan, j, from);
      var steps2;
      steps2, j' := FinishRange(oom, parallel, plan, j1, from + 1, to);
      steps := steps1 + steps2;
      RunJoin(oom, parallel, j, steps1, j1, steps2, j');
      LaterLeaveAlone(oom, plan, j1, j', from, to);
      forall p ensures WrittenBy(oom, plan, j, j', from, to, p) {
        WrittenByJoin(oom, plan, j, j1, j', from, to, p);
      }
    }
  }

  lemma NothingRun(oom: Oom, parallel: int, j: Job)
    ensures Run(oom, parallel, j, [], j)
  {
  }

  /** The result of a chunk is not written by chunks of greater index. */
  lemma LaterLeaveAlone(oom: Oom, plan: seq<Chunk>, a: Job, b: Job, k: nat, to: nat)
    requires Numbered(plan) && k < to <= |plan| == |a.nodes| == |b.nodes|
    requires EndedRight(oom, plan, a, k) && b.nodes[k] == a.nodes[k]
    requires OnlyWrittenBy(oom, plan, a, b, k + 1, to)
    ensures EndedRight(oom, plan, b, k)
  {
    var path := ResultPath(oom, plan[k]);
    forall i | k + 1 <= i < to ensures !Owns(oom, plan[i], path) {
      if Owns(oom, plan[i], path) { OwnsFromIndex(oom, plan[i], path); }
    }
    assert WrittenBy(oom, plan, a, b, k + 1, to, path);
  }

  lemma WrittenByJoin(oom: Oom, plan: seq<Chunk>, a: Job, b: Job, c: Job, from: nat, to: nat, p: Path)
    requires from < to <= |plan| && WrittenBy(oom, plan, b, c, from + 1, to, p)
    requires if Owns(oom, plan[from], p) then StartsWithin(b.files, p, plan[from]) else SameFile(a.files, b.files, p)
    ensures WrittenBy(oom, plan, a, c, from, to, p)
  {
    hide Owns;
    if exists i :: from + 1 <= i < to && Owns(oom, plan[i], p) {
      var i :| from + 1 <= i < to && Owns(oom, plan[i], p) && StartsWithin(c.files, p, plan[i]);
    } else if Owns(oom, plan[from], p) {
      assert StartsWithin(c.files, p, plan[from]);
    }
  }
}
