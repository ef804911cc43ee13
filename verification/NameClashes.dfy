/** The converse of RenderPaths: when index names do not stay apart, some interleaving corrupts a file. */
module NameClashes {
  import opened Types
  import opened Planner
  import opened RenderPaths
  import opened RenderRuns

  // ---------------------------------------------------------------- two trees that share an index

  /** The leaf at this place is finished, in the file of this index, and its first page is known. */
  ghost predicate LeafAt(node: Node, at: seq<Turn>, index: real, first: int) {
    var leaf := NodeAt(node, at);
    IsPlace(node, at) && leaf.Finished? && leaf.path == ChunkFile(index) && leaf.chunk.pageStart == first && leaf.chunk.Pages() >= 1
  }

  ghost predicate FileStarts(files: Files, index: real, first: int) {
    ChunkFile(index) in files && files[ChunkFile(index)] != [] && files[ChunkFile(index)][0] == first
  }

  /** The leaf at this place is finished, but its file begins with another page than its own. */
  ghost predicate OverwrittenAt(files: Files, node: Node, at: seq<Turn>) {
    exists index, first, other :: LeafAt(node, at, index, first) && FileStarts(files, index, other) && other != first
  }

  lemma {:induction false} OverwrittenIsUnsound(files: Files, node: Node, at: seq<Turn>)
    requires OverwrittenAt(files, node, at)
    ensures !Sound(files, node)
    decreases |at|
  {
    var index, first, other :| LeafAt(node, at, index, first) && FileStarts(files, index, other) && other != first;
    if at != [] {
      assert LeafAt(Half(node, at[0]), at[1..], index, first);
      OverwrittenIsUnsound(files, Half(node, at[0]), at[1..]);
    }
  }

  lemma OverwrittenBelow(files: Files, node: Node, turn: Turn, at: seq<Turn>)
    requires node.Split? && OverwrittenAt(files, Half(node, turn), at)
    ensures OverwrittenAt(files, node, [turn] + at)
  {
    var index, first, other :| LeafAt(Half(node, turn), at, index, first) && FileStarts(files, index, other) && other != first;
    LeafBelow(node, turn, at, index, first);
  }

  lemma LeafBelow(node: Node, turn: Turn, at: seq<Turn>, index: real, first: int)
    requires node.Split? && LeafAt(Half(node, turn), at, index, first)
    ensures LeafAt(node, [turn] + at, index, first)
  {
    assert ([turn] + at)[1..] == at;
  }

  /** Every file the finished parts of the tree lie in has this name. */
  ghost predicate UsesOnly(node: Node, path: Path) {
    match node
    case Finished(_, p) => p == path
    case Split(_, left, right) => UsesOnly(left, path) && UsesOnly(right, path)
    case _ => true
  }

  /** No part has failed or is held back, and the finished ones have files. */
  ghost predicate Live(files: Files, node: Node) {
    match node
    case Todo(_) => true
    case Finished(_, path) => path in files
    case Split(_, left, right) => Live(files, left) && Live(files, right)
    case _ => false
  }

  /** Any chunk can be brought to have its leftmost leaf written, in the file of the chunk's own index. */
  lemma {:induction false} WriteLeftmost(oom: Oom, files: Files, chunk: Chunk)
    returns (ats: seq<seq<Turn>>, files': Files, node': Node, at: seq<Turn>)
    requires Recoverable(oom) && chunk.Pages() >= 1
    ensures NodeRun(oom, files, Todo(chunk), ats, files', node') && Descends(oom, files, Todo(chunk), ats)
    ensures LeafAt(node', at, chunk.index, chunk.pageStart) && FileStarts(files', chunk.index, chunk.pageStart)
    ensures UsesOnly(node', ChunkFile(chunk.index)) && Live(files', node')
    decreases chunk.Pages()
  {
    if chunk.Pages() == 1 {
      assert chunk.Span() == (chunk.pageStart, chunk.pageStart);
      assert !oom(chunk.Span());
    }
    var (f, n) := Render(oom, files, chunk);
    NodeStep(oom, files, Todo(chunk), f, n);
    ats, files', node', at := [[]], f, n, [];
    if oom(chunk.Span()) {
      var left := Subdivide(chunk)[0];
      var below;
      below, files', node', at := WriteLeftmost(oom, f, left);
      NodeRunBelow(oom, f, n, L, below, files', node');
      LeafBelow(WithHalf(n, L, node'), L, at, chunk.index, chunk.pageStart);
      node', at := WithHalf(n, L, node'), [L] + at;
      NodeRunJoin(oom, files, Todo(chunk), ats, f, n, Below(L, below), files', node');
      ats := ats + Below(L, below);
    }
  }

  /** A tree in which a left half is halved again can be brought to have a leaf overwritten. */
  lemma {:induction false} ClashInOneTree(oom: Oom, files: Files, chunk: Chunk)
    returns (ats: seq<seq<Turn>>, files': Files, node': Node, at: seq<Turn>)
    requires Recoverable(oom) && !RightOnly(oom, chunk)
    ensures NodeRun(oom, files, Todo(chunk), ats, files', node') && Descends(oom, files, Todo(chunk), ats)
    ensures OverwrittenAt(files', node', at)
    decreases chunk.Pages()
  {
    var left, right := Subdivide(chunk)[0], Subdivide(chunk)[1];
    var (f, n) := Render(oom, files, chunk);
    assert n == Split(chunk, Todo(left), Todo(right)) && f == files;
    NodeStep(oom, files, Todo(chunk), f, n);
    ats := [[]];
    var below;
    if Splits(oom, left) {
      below, files', node', at := ClashOfHalves(oom, f, n, left, right);
      NodeRunJoin(oom, files, Todo(chunk), ats, f, n, below, files', node');
      ats := ats + below;
    } else {
      below, files', node', at := ClashInOneTree(oom, f, right);
      NodeRunBelow(oom, f, n, R, below, files', node');
      OverwrittenBelow(files', WithHalf(n, R, node'), R, at);
      node', at := WithHalf(n, R, node'), [R] + at;
      NodeRunJoin(oom, files, Todo(chunk), ats, f, n, Below(R, below), files', node');
      ats := ats + Below(R, below);
    }
  }

  /** The right half of the left half carries the index of the right half: one overwrites the other. */
  lemma ClashOfHalves(oom: Oom, files: Files, node: Node, left: Chunk, right: Chunk)
    returns (ats: seq<seq<Turn>>, files': Files, node': Node, at: seq<Turn>)
    requires Recoverable(oom) && node.Split? && node.left == Todo(left) && node.right == Todo(right)
    requires Splits(oom, left) && right.Pages() >= 1
    requires right.index == left.index + 0.5 && right.pageStart == left.pageEnd + 1
    ensures NodeRun(oom, files, node, ats, files', node') && Descends(oom, files, node, ats)
    ensures OverwrittenAt(files', node', at)
  {
    var inner := Subdivide(left)[1];
    var (f1, n1) := Render(oom, files, left);
    assert n1 == Split(left, Todo(Subdivide(left)[0]), Todo(inner)) && f1 == files;
    NodeStep(oom, files, Todo(left), f1, n1);
    var ats2, f2, n2, at2 := WriteLeftmost(oom, f1, inner);
    NodeRunBelow(oom, f1, n1, R, ats2, f2, n2);
    var left2 := WithHalf(n1, R, n2);
    NodeRunJoin(oom, files, Todo(left), [[]], f1, n1, Below(R, ats2), f2, left2);
    var ats3 := [[]] + Below(R, ats2);
    NodeRunBelow(oom, files, node, L, ats3, f2, left2);
    var node2 := WithHalf(node, L, left2);
    var ats4, f3, n3, _ := WriteLeftmost(oom, f2, right);
    NodeRunBelow(oom, f2, node2, R, ats4, f3, n3);
    files', node' := f3, WithHalf(node2, R, n3);
    ats := Below(L, ats3) + Below(R, ats4);
    NodeRunJoin(oom, files, node, Below(L, ats3), f2, node2, Below(R, ats4), files', node');
    LeafBelow(left2, R, at2, inner.index, inner.pageStart);
    LeafBelow(node', L, [R] + at2, inner.index, inner.pageStart);
    at := [L] + ([R] + at2);
  }

  // ---------------------------------------------------------------- the whole job

  lemma ClashInPlan(oom: Oom, parallel: int, plan: seq<Chunk>, k: nat) returns (steps: seq<Action>, j: Job)
    requires Recoverable(oom) && parallel >= 1 && k < |plan| && !RightOnly(oom, plan[k])
    ensures Run(oom, parallel, Start(plan), steps, j) && !JobSound(j)
  {
    var s := Start(plan);
    NoneActive(s.nodes);
    Begun(oom, parallel, s, k);
    var s1 := s.(nodes := s.nodes[k := Todo(plan[k])]);
    var ats, f, n, at := ClashInOneTree(oom, s1.files, plan[k]);
    NodeRunInJob(oom, parallel, s1, k, ats, f, n);
    steps, j := [Begin(k)] + StepsOf(k, ats), Job(f, s1.nodes[k := n]);
    RunJoin(oom, parallel, s, [Begin(k)], s1, StepsOf(k, ats), j);
    OverwrittenIsUnsound(j.files, j.nodes[k], at);
    assert !Sound(j.files, j.nodes[k]);
  }

  /** A twice-halved chunk reaches the next chunk's index: a leaf of it is written, then overwritten by the next chunk. */
  lemma ClashOfNeighbours(oom: Oom, files: Files, a: Chunk, b: Chunk)
    returns (ats: seq<seq<Turn>>, f1: Files, n1: Node, at: seq<Turn>, bts: seq<seq<Turn>>, f2: Files, n2: Node)
    requires Recoverable(oom) && Splits(oom, a) && Splits(oom, Subdivide(a)[1])
    requires b.index == a.index + 1.0 && b.pageStart == a.pageEnd + 1 <= b.pageEnd
    ensures NodeRun(oom, files, Todo(a), ats, f1, n1) && Descends(oom, files, Todo(a), ats) && Live(f1, n1)
    ensures NodeRun(oom, f1, Todo(b), bts, f2, n2) && Descends(oom, f1, Todo(b), bts) && Live(f2, n2)
    ensures UsesOnly(n2, ChunkFile(b.index)) && FileStarts(f2, b.index, b.pageStart)
    ensures OverwrittenAt(f2, n1, at) && LeafAt(n1, at, b.index, NodeAt(n1, at).chunk.pageStart)
  {
    var first;
    ats, f1, n1, at, first := TwiceHalvedLeaf(oom, files, a);
    var other;
    bts, f2, n2, other := WriteLeftmost(oom, f1, b);
  }

  /** The second right half of a twice-halved chunk, its leftmost leaf written under index + 1. */
  lemma TwiceHalvedLeaf(oom: Oom, files: Files, chunk: Chunk)
    returns (ats: seq<seq<Turn>>, files': Files, node': Node, at: seq<Turn>, first: int)
    requires Recoverable(oom) && Splits(oom, chunk) && Splits(oom, Subdivide(chunk)[1])
    ensures NodeRun(oom, files, Todo(chunk), ats, files', node') && Descends(oom, files, Todo(chunk), ats)
    ensures first <= chunk.pageEnd && LeafAt(node', at, chunk.index + 1.0, first) && Live(files', node')
  {
    var right := Subdivide(chunk)[1];
    var inner := Subdivide(right)[1];
    var (f1, n1) := Render(oom, files, chunk);
    NodeStep(oom, files, Todo(chunk), f1, n1);
    var (f2, n2) := Render(oom, f1, right);
    NodeStep(oom, f1, Todo(right), f2, n2);
    var ats3, f3, n3, at3 := WriteLeftmost(oom, f2, inner);
    NodeRunBelow(oom, f2, n2, R, ats3, f3, n3);
    NodeRunJoin(oom, f1, Todo(right), [[]], f2, n2, Below(R, ats3), f3, WithHalf(n2, R, n3));
    var ats4 := [[]] + Below(R, ats3);
    NodeRunBelow(oom, f1, n1, R, ats4, f3, WithHalf(n2, R, n3));
    files', node', first := f3, WithHalf(n1, R, WithHalf(n2, R, n3)), inner.pageStart;
    ats := [[]] + Below(R, ats4);
    NodeRunJoin(oom, files, Todo(chunk), [[]], f1, n1, Below(R, ats4), files', node');
    LeafBelow(WithHalf(n2, R, n3), R, at3, inner.index, inner.pageStart);
    LeafBelow(node', R, [R] + at3, inner.index, inner.pageStart);
    at := [R] + ([R] + at3);
  }

  lemma ClashWithNextChunk(oom: Oom, parallel: int, plan: seq<Chunk>, k: nat) returns (steps: seq<Action>, j: Job)
    requires Recoverable(oom) && parallel >= 2 && k + 1 < |plan|
    requires Splits(oom, plan[k]) && Splits(oom, Subdivide(plan[k])[1])
    requires plan[k + 1].index == plan[k].index + 1.0 && plan[k + 1].pageStart == plan[k].pageEnd + 1 <= plan[k + 1].pageEnd
    ensures Run(oom, parallel, Start(plan), steps, j) && !JobSound(j)
  {
    hide Run, NodeRun, Splits, Descends;
    var s := Start(plan);
    NoneActive(s.nodes);
    var s2 := s.(nodes := s.nodes[k := Todo(plan[k])][k + 1 := Todo(plan[k + 1])]);
    BegunTwo(oom, parallel, s, k);
    var ats, f1, n1, at, bts, f2, n2 := ClashOfNeighbours(oom, s2.files, plan[k], plan[k + 1]);
    NodeRunInJob(oom, parallel, s2, k, ats, f1, n1);
    var s3 := Job(f1, s2.nodes[k := n1]);
    RunJoin(oom, parallel, s, [Begin(k)] + [Begin(k + 1)], s2, StepsOf(k, ats), s3);
    NodeRunInJob(oom, parallel, s3, k + 1, bts, f2, n2);
    j := Job(f2, s3.nodes[k + 1 := n2]);
    steps := [Begin(k)] + [Begin(k + 1)] + StepsOf(k, ats) + StepsOf(k + 1, bts);
    RunJoin(oom, parallel, s, [Begin(k)] + [Begin(k + 1)] + StepsOf(k, ats), s3, StepsOf(k + 1, bts), j);
    OverwrittenIsUnsound(f2, n1, at);
    assert !Sound(j.files, j.nodes[k]);
  }

  lemma SomeClash(oom: Oom, parallel: int, plan: seq<Chunk>, pageCount: int) returns (steps: seq<Action>, j: Job)
    requires Recoverable(oom) && parallel >= 2
    requires Numbered(plan) && pageCount > 0 && Tiles(Spans(plan), 1, pageCount)
    requires !NamesStayApart(oom, plan)
    ensures Run(oom, parallel, Start(plan), steps, j) && !JobSound(j)
  {
    if k :| 0 <= k < |plan| && !RightOnly(oom, plan[k]) {
      steps, j := ClashInPlan(oom, parallel, plan, k);
    } else {
      var k :| 0 <= k && k + 1 < |plan| && Splits(oom, plan[k]) && Splits(oom, Subdivide(plan[k])[1]);
      TilesToIndex(Spans(plan), 1, pageCount);
      var rs := Spans(plan);
      assert rs[k] == plan[k].Span() && rs[k + 1] == plan[k + 1].Span();
      steps, j := ClashWithNextChunk(oom, parallel, plan, k);
    }
  }

  /** In every interleaving every finished render has its own pages in its file, and no merge is refused. */
  ghost predicate AlwaysSound(oom: Oom, parallel: int, plan: seq<Chunk>) {
    forall steps, j :: Run(oom, parallel, Start(plan), steps, j) ==> JobSound(j)
  }

  lemma OneUnsoundRun(oom: Oom, parallel: int, plan: seq<Chunk>, steps: seq<Action>, j: Job)
    requires Run(oom, parallel, Start(plan), steps, j) && !JobSound(j)
    ensures !AlwaysSound(oom, parallel, plan)
  {
  }

  /**
   For a numbered cover, two or more workers and any set of ranges that do not fit (single pages
   always do), the files are always right if and only if no left half is halved again and no half
   at all outside the plan's last chunk.
   */
  lemma FilesAreRightIffNamesStayApart(oom: Oom, parallel: int, plan: seq<Chunk>, pageCount: int)
    requires Recoverable(oom) && parallel >= 2
    requires Numbered(plan) && pageCount > 0 && Tiles(Spans(plan), 1, pageCount)
    ensures AlwaysSound(oom, parallel, plan) <==> NamesStayApart(oom, plan)
  {
    if NamesStayApart(oom, plan) {
      forall steps, j | Run(oom, parallel, Start(plan), steps, j) ensures JobSound(j) {
        JobInvOnRuns(oom, parallel, plan, Start(plan), steps, j);
      }
    } else {
      var steps, j := SomeClash(oom, parallel, plan, pageCount);
      OneUnsoundRun(oom, parallel, plan, steps, j);
    }
  }

  // ---------------------------------------------------------------- a wrong document, without any error

  const TWO_CHUNKS := [Chunk(0.0, 1, 4, false), Chunk(1.0, 5, 8, false)]

  const FIRST_CHUNK_LEAVES := Split(Chunk(0.0, 1, 4, false), Finished(Chunk(0.0, 1, 2, false), ChunkFile(0.0)),
    Split(Chunk(0.5, 3, 4, false), Finished(Chunk(0.5, 3, 3, false), ChunkFile(0.5)), Finished(Chunk(1.0, 4, 4, false), ChunkFile(1.0))))

  function TwoRangesTooBig(): Oom {
    (span: Span) => span == (1, 4) || span == (3, 4)
  }

  /** Both chunks begun, the first halved twice, its three leaves written; page 4 is in chunk-1.0.pdf. */
  lemma FourthPageWritten() returns (steps: seq<Action>, j: Job)
    ensures Run(TwoRangesTooBig(), 2, Start(TWO_CHUNKS), steps, j)
    ensures j.files == map[ChunkFile(0.0) := [1, 2], ChunkFile(0.5) := [3], ChunkFile(1.0) := [4]]
    ensures j.nodes == [FIRST_CHUNK_LEAVES, Todo(TWO_CHUNKS[1])]
  {
    var oom := TwoRangesTooBig();
    var s0 := Start(TWO_CHUNKS);
    NoneActive(s0.nodes);
    Begun(oom, 2, s0, 0);
    var s1 := s0.(nodes := s0.nodes[0 := Todo(TWO_CHUNKS[0])]);
    Begun(oom, 2, s1, 1);
    var s2 := s1.(nodes := s1.nodes[1 := Todo(TWO_CHUNKS[1])]);
    RunJoin(oom, 2, s0, [Begin(0)], s1, [Begin(1)], s2);
    steps := [Begin(0)] + [Begin(1)];
    var ats, files, node := FirstChunkWritten(oom, s2.files);
    NodeRunInJob(oom, 2, s2, 0, ats, files, node);
    j := Job(files, s2.nodes[0 := node]);
    RunJoin(oom, 2, s0, steps, s2, StepsOf(0, ats), j);
    steps := steps + StepsOf(0, ats);
  }

  lemma FirstChunkWritten(oom: Oom, files: Files) returns (ats: seq<seq<Turn>>, files': Files, node': Node)
    requires oom == TwoRangesTooBig() && files == map[]
    ensures NodeRun(oom, files, Todo(TWO_CHUNKS[0]), ats, files', node') && Descends(oom, files, Todo(TWO_CHUNKS[0]), ats)
    ensures files' == map[ChunkFile(0.0) := [1, 2], ChunkFile(0.5) := [3], ChunkFile(1.0) := [4]]
    ensures node' == FIRST_CHUNK_LEAVES
  {
    hide NodeRun, Descends;
    var whole := TWO_CHUNKS[0];
    var left, right := Chunk(0.0, 1, 2, false), Chunk(0.5, 3, 4, false);
    var three, four := Chunk(0.5, 3, 3, false), Chunk(1.0, 4, 4, false);
    assert Subdivide(whole) == [left, right] && Subdivide(right) == [three, four];
    var n1 := Split(whole, Todo(left), Todo(right));
    NodeStep(oom, files, Todo(whole), files, n1);
    var f2 := files[ChunkFile(0.0) := PagesOf(left)];
    NodeStep(oom, files, Todo(left), f2, Finished(left, ChunkFile(0.0)));
    NodeRunBelow(oom, files, n1, L, [[]], f2, Finished(left, ChunkFile(0.0)));
    var n2 := WithHalf(n1, L, Finished(left, ChunkFile(0.0)));
    var r1 := Split(right, Todo(three), Todo(four));
    NodeStep(oom, f2, Todo(right), f2, r1);
    var f3 := f2[ChunkFile(0.5) := PagesOf(three)];
    NodeStep(oom, f2, Todo(three), f3, Finished(three, ChunkFile(0.5)));
    NodeRunBelow(oom, f2, r1, L, [[]], f3, Finished(three, ChunkFile(0.5)));
    var r2 := WithHalf(r1, L, Finished(three, ChunkFile(0.5)));
    files' := f3[ChunkFile(1.0) := PagesOf(four)];
    NodeStep(oom, f3, Todo(four), files', Finished(four, ChunkFile(1.0)));
    NodeRunBelow(oom, f3, r2, R, [[]], files', Finished(four, ChunkFile(1.0)));
    var r3 := WithHalf(r2, R, Finished(four, ChunkFile(1.0)));
    NodeRunJoin(oom, f2, Todo(right), [[]], f2, r1, Below(L, [[]]), f3, r2);
    var inRight := [[]] + Below(L, [[]]);
    NodeRunJoin(oom, f2, Todo(right), inRight, f3, r2, Below(R, [[]]), files', r3);
    inRight := inRight + Below(R, [[]]);
    NodeRunBelow(oom, f2, n2, R, inRight, files', r3);
    node' := WithHalf(n2, R, r3);
    NodeRunJoin(oom, files, Todo(whole), [[]], files, n1, Below(L, [[]]), f2, n2);
    ats := [[]] + Below(L, [[]]);
    NodeRunJoin(oom, files, Todo(whole), ats, f2, n2, Below(R, inRight), files', node');
    ats := ats + Below(R, inRight);
    assert PagesOf(left) == [1, 2] && PagesOf(three) == [3] && PagesOf(four) == [4];
  }

  /** The second chunk is written before the halves of the first are merged. */
  lemma OverwriteThenMerge(files: Files) returns (ats: seq<seq<Turn>>, f1: Files, f2: Files)
    requires files == map[ChunkFile(0.0) := [1, 2], ChunkFile(0.5) := [3], ChunkFile(1.0) := [4]]
    ensures NodeRun(TwoRangesTooBig(), files, Todo(TWO_CHUNKS[1]), [[]], f1, Finished(TWO_CHUNKS[1], ChunkFile(1.0)))
    ensures NodeRun(TwoRangesTooBig(), f1, FIRST_CHUNK_LEAVES, ats, f2, Finished(TWO_CHUNKS[0], MergedFile(0.0)))
    ensures MergedFile(0.0) in f2 && f2[MergedFile(0.0)] == [1, 2, 3, 5, 6, 7, 8]
    ensures ChunkFile(1.0) in f2 && f2[ChunkFile(1.0)] == [5, 6, 7, 8]
  {
    hide NodeRun;
    var oom, node := TwoRangesTooBig(), FIRST_CHUNK_LEAVES;
    f1 := files[ChunkFile(1.0) := [5, 6, 7, 8]];
    assert PagesOf(TWO_CHUNKS[1]) == [5, 6, 7, 8];
    NodeStep(oom, files, Todo(TWO_CHUNKS[1]), f1, Finished(TWO_CHUNKS[1], ChunkFile(1.0)));
    var right := Finished(node.right.chunk, MergedFile(0.5));
    var g := f1[MergedFile(0.5) := [3] + [5, 6, 7, 8]];
    NodeStep(oom, f1, node.right, g, right);
    NodeRunBelow(oom, f1, node, R, [[]], g, right);
    var merged := WithHalf(node, R, right);
    f2 := g[MergedFile(0.0) := [1, 2] + ([3] + [5, 6, 7, 8])];
    NodeStep(oom, g, merged, f2, Finished(TWO_CHUNKS[0], MergedFile(0.0)));
    NodeRunJoin(oom, f1, node, Below(R, [[]]), g, merged, [[]], f2, Finished(TWO_CHUNKS[0], MergedFile(0.0)));
    ats := Below(R, [[]]) + [[]];
  }

  /**
   Eight pages in two chunks; 1..4 and its right half 3..4 do not fit in memory. The second chunk
   overwrites chunk-1.0.pdf before page 4 is merged. The job succeeds, page 4 is gone and pages
   5 to 8 come twice.
   */
  lemma DocumentSilentlyWrong() returns (steps: seq<Action>, j: Job)
    ensures Run(TwoRangesTooBig(), 2, Start(TWO_CHUNKS), steps, j) && AllFinished(j)
    ensures Output(j.files, j.nodes) == [1, 2, 3, 5, 6, 7, 8, 5, 6, 7, 8]
  {
    hide Run, Start, NodeRun;
    var oom := TwoRangesTooBig();
    var s0;
    steps, s0 := FourthPageWritten();
    var ats, f1, f2 := OverwriteThenMerge(s0.files);
    var second, whole := Finished(TWO_CHUNKS[1], ChunkFile(1.0)), Finished(TWO_CHUNKS[0], MergedFile(0.0));
    var s1 := Job(f1, s0.nodes[1 := second]);
    NodeRunInJob(oom, 2, s0, 1, [[]], f1, second);
    RunJoin(oom, 2, Start(TWO_CHUNKS), steps, s0, StepsOf(1, [[]]), s1);
    j := Job(f2, s1.nodes[0 := whole]);
    NodeRunInJob(oom, 2, s1, 0, ats, f2, whole);
    RunJoin(oom, 2, Start(TWO_CHUNKS), steps + StepsOf(1, [[]]), s1, StepsOf(0, ats), j);
    steps := steps + StepsOf(1, [[]]) + StepsOf(0, ats);
    assert j.nodes == [whole, second];
    assert j.nodes[..1] == [whole] && j.nodes[..1][..0] == [];
    assert Output(j.files, j.nodes[..1]) == j.files[MergedFile(0.0)];
  }
}
