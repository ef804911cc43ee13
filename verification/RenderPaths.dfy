/**
 The same renders with the files they go through. A chunk is written to a file named after its
 index and the halves of a chunk are merged into another file named after the same index; any
 number of these steps interleave. Halving reuses index names, and this module says exactly when
 that is harmless.
 */
module RenderPaths {
  import opened Types
  import opened Planner

  /** chunk-<index>.pdf and chunk-<index>-merged.pdf; the indices of a job, multiples of a half, are spelled apart. */
  datatype Path = ChunkFile(index: real) | MergedFile(index: real)

  /** The content of a file: the numbers of its pages. */
  type Content = seq<int>

  type Files = map<Path, Content>

  /** The ranges a worker process runs out of memory on; it renders all others. */
  type Oom = Span -> bool

  /** A page by itself always fits. */
  ghost predicate Recoverable(oom: Oom) {
    forall page: int :: !oom((page, page))
  }

  function PagesOf(chunk: Chunk): Content {
    if chunk.Pages() <= 0 then [] else seq(chunk.Pages(), i requires 0 <= i => chunk.pageStart + i)
  }

  /**
   A chunk to be rendered: not begun, given to a worker, done with its result in a file, waiting
   for its halves, or failed. refused tells a merge that was refused from a page that does not fit.
   */
  datatype Node =
    | Waiting(chunk: Chunk)
    | Todo(chunk: Chunk)
    | Finished(chunk: Chunk, path: Path)
    | Split(chunk: Chunk, left: Node, right: Node)
    | Broken(chunk: Chunk, refused: bool)

  /** A step happens at the node reached by these turns. */
  datatype Turn = L | R

  ghost predicate NodeEnabled(files: Files, node: Node, at: seq<Turn>)
    decreases |at|
  {
    if at == [] then
      || node.Todo?
      || (node.Split? && (node.left.Broken? || node.right.Broken?))
      || (node.Split? && node.left.Finished? && node.right.Finished? && node.left.path in files && node.right.path in files)
    else node.Split? && NodeEnabled(files, if at[0].L? then node.left else node.right, at[1..])
  }

  /** Concatenating into a file truncates it first; an input that is the output file has become empty and is refused. */
  function Merge(files: Files, node: Node): (Files, Node)
    requires node.Split? && node.left.Finished? && node.right.Finished?
    requires node.left.path in files && node.right.path in files
  {
    var target := MergedFile(node.chunk.index);
    if node.left.path == target || node.right.path == target then (files[target := []], Broken(node.chunk, true))
    else (files[target := files[node.left.path] + files[node.right.path]], Finished(node.chunk, target))
  }

  function Render(oom: Oom, files: Files, chunk: Chunk): (Files, Node) {
    if !oom(chunk.Span()) then (files[ChunkFile(chunk.index) := PagesOf(chunk)], Finished(chunk, ChunkFile(chunk.index)))
    else if chunk.Pages() <= 1 then (files, Broken(chunk, false))
    else (files, Split(chunk, Todo(Subdivide(chunk)[0]), Todo(Subdivide(chunk)[1])))
  }

  ghost function NodeApply(oom: Oom, files: Files, node: Node, at: seq<Turn>): (Files, Node)
    requires NodeEnabled(files, node, at)
    decreases |at|
  {
    if at == [] then
      match node
      case Todo(chunk) => Render(oom, files, chunk)
      case Split(chunk, left, right) =>
        if left.Broken? then (files, Broken(chunk, left.refused))
        else if right.Broken? then (files, Broken(chunk, right.refused))
        else Merge(files, node)
    else if at[0].L? then
      var (files', left) := NodeApply(oom, files, node.left, at[1..]);
      (files', node.(left := left))
    else
      var (files', right) := NodeApply(oom, files, node.right, at[1..]);
      (files', node.(right := right))
  }

  /** The renders of a plan and the scratch directory they share. */
  datatype Job = Job(files: Files, nodes: seq<Node>)

  /** Begin takes the semaphore for chunk k; Step advances chunk k at some node. */
  datatype Action = Begin(k: nat) | Step(k: nat, at: seq<Turn>)

  ghost function Active(nodes: seq<Node>): nat {
    if nodes == [] then 0
    else Active(nodes[..|nodes| - 1]) + (if nodes[|nodes| - 1].Todo? || nodes[|nodes| - 1].Split? then 1 else 0)
  }

  ghost predicate Enabled(parallel: int, j: Job, a: Action) {
    match a
    case Begin(k) => k < |j.nodes| && j.nodes[k].Waiting? && Active(j.nodes) < parallel
    case Step(k, at) => k < |j.nodes| && NodeEnabled(j.files, j.nodes[k], at)
  }

  ghost function Apply(oom: Oom, parallel: int, j: Job, a: Action): Job
    requires Enabled(parallel, j, a)
  {
    match a
    case Begin(k) => j.(nodes := j.nodes[k := Todo(j.nodes[k].chunk)])
    case Step(k, at) =>
      var (files, node) := NodeApply(oom, j.files, j.nodes[k], at);
      Job(files, j.nodes[k := node])
  }

  ghost predicate Run(oom: Oom, parallel: int, a: Job, steps: seq<Action>, b: Job)
    decreases |steps|
  {
    if steps == [] then a == b
    else Enabled(parallel, a, steps[0]) && Run(oom, parallel, Apply(oom, parallel, a, steps[0]), steps[1..], b)
  }

  function Start(plan: seq<Chunk>): Job {
    Job(map[], seq(|plan|, k requires 0 <= k < |plan| => Waiting(plan[k])))
  }

  // ---------------------------------------------------------------- soundness of a state

  /** Every finished part of the chunk has exactly its pages in its file, and no merge has been refused. */
  ghost predicate Sound(files: Files, node: Node) {
    match node
    case Finished(chunk, path) => path in files && files[path] == PagesOf(chunk)
    case Split(_, left, right) => Sound(files, left) && Sound(files, right)
    case Broken(_, refused) => !refused
    case _ => true
  }

  ghost predicate JobSound(j: Job) {
    forall k :: 0 <= k < |j.nodes| ==> Sound(j.files, j.nodes[k])
  }

  /** The chunk runs out of memory and is halved. */
  predicate Splits(oom: Oom, chunk: Chunk) {
    chunk.Pages() >= 2 && oom(chunk.Span())
  }

  /** Only right halves are ever halved again. */
  ghost predicate RightOnly(oom: Oom, chunk: Chunk)
    decreases chunk.Pages()
  {
    Splits(oom, chunk) ==>
      !Splits(oom, Subdivide(chunk)[0]) && RightOnly(oom, Subdivide(chunk)[1])
  }

  /**
   The condition under which file names do not clash: no left half is halved again, and no half
   at all unless it belongs to the plan's last chunk.
   */
  ghost predicate NamesStayApart(oom: Oom, plan: seq<Chunk>) {
    forall k :: 0 <= k < |plan| ==>
      && RightOnly(oom, plan[k])
      && (k + 1 < |plan| && Splits(oom, plan[k]) ==> !Splits(oom, Subdivide(plan[k])[1]))
  }

  // ---------------------------------------------------------------- when names stay apart, files are right

  /** The file a finished chunk ends in. */
  function ResultPath(oom: Oom, chunk: Chunk): Path {
    if Splits(oom, chunk) then MergedFile(chunk.index) else ChunkFile(chunk.index)
  }

  /** The node is a stage of rendering the chunk. */
  ghost predicate StageOf(oom: Oom, node: Node, chunk: Chunk)
    decreases node
  {
    && node.chunk == chunk
    && match node
       case Finished(_, path) => path == ResultPath(oom, chunk)
       case Split(_, left, right) =>
         Splits(oom, chunk) && StageOf(oom, left, Subdivide(chunk)[0]) && StageOf(oom, right, Subdivide(chunk)[1])
       case _ => true
  }

  /** The files that rendering the chunk may write. */
  ghost predicate Owns(oom: Oom, chunk: Chunk, path: Path)
    decreases chunk.Pages()
  {
    if Splits(oom, chunk) then
      || path == MergedFile(chunk.index)
      || Owns(oom, Subdivide(chunk)[0], path)
      || Owns(oom, Subdivide(chunk)[1], path)
    else path == ChunkFile(chunk.index)
  }

  lemma {:induction false} OwnsFromIndex(oom: Oom, chunk: Chunk, path: Path)
    requires Owns(oom, chunk, path)
    ensures path.index >= chunk.index
    ensures Splits(oom, chunk) && !Splits(oom, Subdivide(chunk)[0]) && !Splits(oom, Subdivide(chunk)[1]) ==>
      path.index <= chunk.index + 0.5
    decreases chunk.Pages()
  {
    if Splits(oom, chunk) {
      if Owns(oom, Subdivide(chunk)[0], path) {
        OwnsFromIndex(oom, Subdivide(chunk)[0], path);
      } else if Owns(oom, Subdivide(chunk)[1], path) {
        OwnsFromIndex(oom, Subdivide(chunk)[1], path);
      }
    }
  }

  ghost predicate SameFile(a: Files, b: Files, path: Path) {
    (path in a <==> path in b) && (path in a ==> a[path] == b[path])
  }

  /** Whether a stage of a chunk is sound depends only on the files the chunk owns. */
  lemma {:induction false} SoundFrame(oom: Oom, node: Node, chunk: Chunk, a: Files, b: Files)
    requires StageOf(oom, node, chunk) && Sound(a, node)
    requires forall path :: Owns(oom, chunk, path) ==> SameFile(a, b, path)
    ensures Sound(b, node)
    decreases node
  {
    match node
    case Finished(_, path) => assert Owns(oom, chunk, path);
    case Split(_, left, right) =>
      SoundFrame(oom, left, Subdivide(chunk)[0], a, b);
      SoundFrame(oom, right, Subdivide(chunk)[1], a, b);
    case _ =>
  }

  /** The halves of a right-only chunk own different files, and neither owns the merged file. */
  lemma HalvesApart(oom: Oom, chunk: Chunk, path: Path)
    requires Splits(oom, chunk) && RightOnly(oom, chunk)
    ensures !(Owns(oom, Subdivide(chunk)[0], path) && Owns(oom, Subdivide(chunk)[1], path))
    ensures path == MergedFile(chunk.index) ==> !Owns(oom, Subdivide(chunk)[0], path) && !Owns(oom, Subdivide(chunk)[1], path)
  {
    if Owns(oom, Subdivide(chunk)[1], path) {
      OwnsFromIndex(oom, Subdivide(chunk)[1], path);
    }
  }

  lemma MergeStaysSound(oom: Oom, files: Files, node: Node, chunk: Chunk)
    requires StageOf(oom, node, chunk) && RightOnly(oom, chunk) && Sound(files, node)
    requires node.Split? && node.left.Finished? && node.right.Finished?
    requires node.left.path in files && node.right.path in files
    ensures var (files', node') := Merge(files, node);
      && StageOf(oom, node', chunk) && Sound(files', node')
      && files' == files[MergedFile(chunk.index) := PagesOf(chunk)]
  {
  }

  /** A step on a right-only chunk keeps it sound and writes nothing but its own files. */
  lemma {:induction false} StepStaysSound(oom: Oom, files: Files, node: Node, chunk: Chunk, at: seq<Turn>)
    requires StageOf(oom, node, chunk) && RightOnly(oom, chunk) && Sound(files, node) && NodeEnabled(files, node, at)
    ensures var (files', node') := NodeApply(oom, files, node, at);
      && StageOf(oom, node', chunk) && Sound(files', node') && !node'.Waiting?
      && forall path :: !Owns(oom, chunk, path) ==> SameFile(files, files', path)
    decreases |at|
  {
    var (files', node') := NodeApply(oom, files, node, at);
    if at == [] {
      if node.Split? && !node.left.Broken? && !node.right.Broken? {
        MergeStaysSound(oom, files, node, chunk);
      }
    } else {
      var left, right := Subdivide(chunk)[0], Subdivide(chunk)[1];
      forall path ensures !(Owns(oom, left, path) && Owns(oom, right, path)) {
        HalvesApart(oom, chunk, path);
      }
      if at[0].L? {
        StepStaysSound(oom, files, node.left, left, at[1..]);
        SoundFrame(oom, node.right, right, files, files');
      } else {
        StepStaysSound(oom, files, node.right, right, at[1..]);
        SoundFrame(oom, node.left, left, files, files');
      }
    }
  }

  ghost predicate JobInv(oom: Oom, plan: seq<Chunk>, j: Job) {
    && |j.nodes| == |plan|
    && JobSound(j)
    && forall k :: 0 <= k < |plan| ==> StageOf(oom, j.nodes[k], plan[k])
  }

  /** Different chunks of the plan own different files. */
  lemma ChunksApart(oom: Oom, plan: seq<Chunk>, i: nat, k: nat, path: Path)
    requires NamesStayApart(oom, plan) && Numbered(plan)
    requires i < |plan| && k < |plan| && i != k
    ensures !(Owns(oom, plan[i], path) && Owns(oom, plan[k], path))
  {
    if Owns(oom, plan[i], path) && Owns(oom, plan[k], path) {
      var a, b := if i < k then i else k, if i < k then k else i;
      OwnsFromIndex(oom, plan[a], path);
      OwnsFromIndex(oom, plan[b], path);
    }
  }

  lemma JobInvStep(oom: Oom, parallel: int, plan: seq<Chunk>, j: Job, a: Action)
    requires NamesStayApart(oom, plan) && Numbered(plan)
    requires JobInv(oom, plan, j) && Enabled(parallel, j, a)
    ensures JobInv(oom, plan, Apply(oom, parallel, j, a))
  {
    if a.Step? {
      var q := Apply(oom, parallel, j, a);
      StepStaysSound(oom, j.files, j.nodes[a.k], plan[a.k], a.at);
      forall k | 0 <= k < |plan| ensures Sound(q.files, q.nodes[k]) {
        if k != a.k {
          forall path | Owns(oom, plan[k], path) ensures SameFile(j.files, q.files, path) {
            ChunksApart(oom, plan, a.k, k, path);
          }
          SoundFrame(oom, j.nodes[k], plan[k], j.files, q.files);
        }
      }
    }
  }

  lemma {:induction false} JobInvOnRuns(oom: Oom, parallel: int, plan: seq<Chunk>, a: Job, steps: seq<Action>, b: Job)
    requires NamesStayApart(oom, plan) && Numbered(plan)
    requires JobInv(oom, plan, a) && Run(oom, parallel, a, steps, b)
    ensures JobInv(oom, plan, b)
    decreases |steps|
  {
    if steps != [] {
      JobInvStep(oom, parallel, plan, a, steps[0]);
      JobInvOnRuns(oom, parallel, plan, Apply(oom, parallel, a, steps[0]), steps[1..], b);
    }
  }

  // ---------------------------------------------------------------- what the merged output is

  ghost predicate AllFinished(j: Job) {
    forall k :: 0 <= k < |j.nodes| ==> j.nodes[k].Finished? && j.nodes[k].path in j.files
  }

  /** The concatenation, in plan order, of the files the chunks ended in. */
  ghost function Output(files: Files, nodes: seq<Node>): Content
    requires forall k :: 0 <= k < |nodes| ==> nodes[k].Finished? && nodes[k].path in files
  {
    if nodes == [] then []
    else Output(files, nodes[..|nodes| - 1]) + files[nodes[|nodes| - 1].path]
  }

  function FirstPages(n: int): Content {
    PagesOf(Chunk(0.0, 1, n, false))
  }

  lemma FirstPagesGrow(n: int, next: Chunk)
    requires n >= 1 && next.pageStart == n + 1 <= next.pageEnd
    ensures FirstPages(n) + PagesOf(next) == FirstPages(next.pageEnd)
  {
  }

  lemma OneChunk(chunk: Chunk)
    requires chunk.pageStart == 1 <= chunk.pageEnd
    ensures PagesOf(chunk) == FirstPages(chunk.pageEnd)
  {
  }

  lemma {:induction false} OutputOfCover(files: Files, nodes: seq<Node>, plan: seq<Chunk>)
    requires |nodes| == |plan| > 0 && TilesByIndex(Spans(plan), 1, plan[|plan| - 1].pageEnd)
    requires forall k :: 0 <= k < |nodes| ==>
      nodes[k].Finished? && nodes[k].path in files && files[nodes[k].path] == PagesOf(plan[k])
    ensures plan[|plan| - 1].pageEnd >= 1 && Output(files, nodes) == FirstPages(plan[|plan| - 1].pageEnd)
  {
    hide PagesOf, FirstPages;
    var n := |plan|;
    var rs := Spans(plan);
    assert rs[n - 1] == plan[n - 1].Span() && rs[0] == plan[0].Span();
    if n == 1 {
      OneChunk(plan[0]);
      assert Output(files, nodes[..0]) == [];
    } else {
      assert Spans(plan[..n - 1]) == rs[..n - 1];
      assert rs[n - 1].0 == rs[n - 2].1 + 1;
      OutputOfCover(files, nodes[..n - 1], plan[..n - 1]);
      FirstPagesGrow(plan[n - 2].pageEnd, plan[n - 1]);
    }
  }

  lemma SoundJobHasAllPages(oom: Oom, plan: seq<Chunk>, pageCount: int, j: Job)
    requires pageCount > 0 && Tiles(Spans(plan), 1, pageCount)
    requires JobInv(oom, plan, j) && AllFinished(j)
    ensures Output(j.files, j.nodes) == FirstPages(pageCount)
  {
    TilesToIndex(Spans(plan), 1, pageCount);
    forall k | 0 <= k < |plan| ensures j.files[j.nodes[k].path] == PagesOf(plan[k]) {
      assert Sound(j.files, j.nodes[k]) && StageOf(oom, j.nodes[k], plan[k]);
    }
    assert Spans(plan)[|plan| - 1] == plan[|plan| - 1].Span();
    OutputOfCover(j.files, j.nodes, plan);
  }

  /**
   However the renders of a numbered cover of 1..N interleave, when the names stay apart a job
   that finishes outputs the pages 1..N, once each and in order.
   */
  lemma FinishedJobHasAllPages(oom: Oom, parallel: int, plan: seq<Chunk>, pageCount: int, steps: seq<Action>, j: Job)
    requires NamesStayApart(oom, plan) && Numbered(plan)
    requires pageCount > 0 && Tiles(Spans(plan), 1, pageCount)
    requires Run(oom, parallel, Start(plan), steps, j) && AllFinished(j)
    ensures Output(j.files, j.nodes) == FirstPages(pageCount)
  {
    JobInvOnRuns(oom, parallel, plan, Start(plan), steps, j);
    SoundJobHasAllPages(oom, plan, pageCount, j);
  }
}
