/**
 One-shot rendering of a chunk with halving after an out-of-memory failure, by page interval:
 what it returns, when it succeeds, and what it costs. The files in between are left to
 RenderPaths: what is said here of the pages holds of the files while NamesStayApart does.
 */
module RenderTree {
  import opened Basics
  import opened Types
  import opened Planner
  import opened PdfPages

  /** What a worker process makes of a page range. */
  datatype Verdict = Ok | OutOfMemory | Fails(code: int)

  type Worker = Span -> Verdict
  type Cached = Span -> bool

  datatype RenderError = SubdivisionFloor(chunk: Chunk, attempts: nat) | RenderFailed(chunk: Chunk, code: int)

  datatype Result = Rendered(pages: seq<Page>) | Failed(error: RenderError)

  /** Only ranges that start within the document, or right after it, can be rendered or cached. */
  ghost predicate Honest(doc: seq<Page>, worker: Worker, cached: Cached) {
    forall span: Span :: worker(span).Ok? || cached(span) ==> span.0 - 1 <= |doc|
  }

  /** The chunk comes from the cache, from one worker, or from both its halves. */
  ghost predicate Renders(worker: Worker, cached: Cached, chunk: Chunk)
    decreases chunk.Pages()
  {
    || cached(chunk.Span())
    || worker(chunk.Span()).Ok?
    || (worker(chunk.Span()).OutOfMemory? && chunk.Pages() >= 2
        && var halves := Subdivide(chunk);
           Renders(worker, cached, halves[0]) && Renders(worker, cached, halves[1]))
  }

  /** What the halving of a chunk comes to: ranges found in the cache, rendered, and halved, and levels of halves. */
  datatype Tally = Tally(hits: nat, renders: nat, halvings: nat, levels: nat)

  function Plus(a: Tally, b: Tally): Tally {
    Tally(a.hits + b.hits, a.renders + b.renders, a.halvings + b.halvings, Max(a.levels, b.levels))
  }

  /** Over the halving tree of a chunk that can be rendered. */
  ghost function TallyOf(worker: Worker, cached: Cached, chunk: Chunk): Tally
    decreases chunk.Pages()
  {
    if cached(chunk.Span()) then Tally(1, 0, 0, 0)
    else if worker(chunk.Span()).Ok? || chunk.Pages() < 2 then Tally(0, 1, 0, 0)
    else
      var halves := Subdivide(chunk);
      var both := Plus(TallyOf(worker, cached, halves[0]), TallyOf(worker, cached, halves[1]));
      both.(halvings := both.halvings + 1, levels := both.levels + 1)
  }

  /** A leaf of the tree: it is found, or rendered, or ends the attempt. */
  lemma LeafOf(worker: Worker, cached: Cached, chunk: Chunk)
    requires cached(chunk.Span()) || !worker(chunk.Span()).OutOfMemory? || chunk.Pages() < 2
    ensures Renders(worker, cached, chunk) <==> cached(chunk.Span()) || worker(chunk.Span()).Ok?
    ensures cached(chunk.Span()) ==> TallyOf(worker, cached, chunk) == Tally(1, 0, 0, 0)
    ensures !cached(chunk.Span()) && worker(chunk.Span()).Ok? ==> TallyOf(worker, cached, chunk) == Tally(0, 1, 0, 0)
  {
  }

  lemma HalvesOf(worker: Worker, cached: Cached, chunk: Chunk)
    requires !cached(chunk.Span()) && worker(chunk.Span()).OutOfMemory? && chunk.Pages() >= 2
    ensures var left, right := Subdivide(chunk)[0], Subdivide(chunk)[1];
      && (Renders(worker, cached, chunk) <==> Renders(worker, cached, left) && Renders(worker, cached, right))
      && var both := Plus(TallyOf(worker, cached, left), TallyOf(worker, cached, right));
         TallyOf(worker, cached, chunk) == both.(halvings := both.halvings + 1, levels := both.levels + 1)
  {
  }

  /** A tree has one leaf more than it has halvings, and none of them in a cache that is empty. */
  lemma {:induction false} TallyBalances(worker: Worker, cached: Cached, chunk: Chunk)
    ensures var t := TallyOf(worker, cached, chunk);
      && t.hits + t.renders == t.halvings + 1
      && ((forall span :: !cached(span)) ==> t.hits == 0)
    decreases chunk.Pages()
  {
    if !cached(chunk.Span()) && !worker(chunk.Span()).Ok? && chunk.Pages() >= 2 {
      TallyBalances(worker, cached, Subdivide(chunk)[0]);
      TallyBalances(worker, cached, Subdivide(chunk)[1]);
    }
  }

  /** The ranges that the halving comes to: the chunk's own, and those of its halves if it is halved. */
  ghost function Reached(worker: Worker, cached: Cached, chunk: Chunk): set<Span>
    decreases chunk.Pages()
  {
    {chunk.Span()} +
    if cached(chunk.Span()) || worker(chunk.Span()).Ok? || chunk.Pages() < 2 then {}
    else Reached(worker, cached, Subdivide(chunk)[0]) + Reached(worker, cached, Subdivide(chunk)[1])
  }

  lemma {:induction false} ReachedWithin(worker: Worker, cached: Cached, chunk: Chunk)
    requires chunk.Pages() >= 1
    ensures forall span <- Reached(worker, cached, chunk) :: chunk.pageStart <= span.0 <= span.1 <= chunk.pageEnd
    decreases chunk.Pages()
  {
    if chunk.Pages() >= 2 {
      ReachedWithin(worker, cached, Subdivide(chunk)[0]);
      ReachedWithin(worker, cached, Subdivide(chunk)[1]);
    }
  }

  /** What becomes of a range. */
  datatype Fate = InCache | Made | Halved | Lost

  function FateOf(worker: Worker, cached: Cached, span: Span): Fate {
    if cached(span) then InCache
    else match worker(span)
      case Ok => Made
      case OutOfMemory => Halved
      case Fails(_) => Lost
  }

  ghost function Share(worker: Worker, cached: Cached, spans: set<Span>, fate: Fate): set<Span> {
    set span | span in spans && FateOf(worker, cached, span) == fate
  }

  lemma ShareJoins(worker: Worker, cached: Cached, x: set<Span>, y: set<Span>, fate: Fate)
    requires x !! y
    ensures |Share(worker, cached, x + y, fate)| == |Share(worker, cached, x, fate)| + |Share(worker, cached, y, fate)|
  {
    assert Share(worker, cached, x + y, fate) == Share(worker, cached, x, fate) + Share(worker, cached, y, fate);
  }

  lemma ShareOfOne(worker: Worker, cached: Cached, span: Span, fate: Fate)
    ensures |Share(worker, cached, {span}, fate)| == if FateOf(worker, cached, span) == fate then 1 else 0
  {
    assert Share(worker, cached, {span}, fate) == if FateOf(worker, cached, span) == fate then {span} else {};
  }

  function CountOf(t: Tally, fate: Fate): nat {
    match fate
    case InCache => t.hits
    case Made => t.renders
    case Halved => t.halvings
    case Lost => 0
  }

  /** The tally counts the ranges come to: so many are in the cache, so many rendered, so many halved, and none lost. */
  lemma {:induction false} TallyCountsRanges(worker: Worker, cached: Cached, chunk: Chunk, fate: Fate)
    requires chunk.Pages() >= 1 && Renders(worker, cached, chunk)
    ensures CountOf(TallyOf(worker, cached, chunk), fate) == |Share(worker, cached, Reached(worker, cached, chunk), fate)|
    decreases chunk.Pages()
  {
    hide Share, TallyOf, Reached, Renders;
    ShareOfOne(worker, cached, chunk.Span(), fate);
    if !cached(chunk.Span()) && worker(chunk.Span()).OutOfMemory? && chunk.Pages() >= 2 {
      HalvesOf(worker, cached, chunk);
      TallyCountsRanges(worker, cached, Subdivide(chunk)[0], fate);
      TallyCountsRanges(worker, cached, Subdivide(chunk)[1], fate);
      ReachedApart(worker, cached, chunk, fate);
    } else {
      LeafOf(worker, cached, chunk);
      ReachedLeaf(worker, cached, chunk);
    }
  }

  lemma ReachedLeaf(worker: Worker, cached: Cached, chunk: Chunk)
    requires cached(chunk.Span()) || worker(chunk.Span()).Ok? || chunk.Pages() < 2
    ensures Reached(worker, cached, chunk) == {chunk.Span()}
  {
  }

  lemma ReachedApart(worker: Worker, cached: Cached, chunk: Chunk, fate: Fate)
    requires chunk.Pages() >= 2 && !cached(chunk.Span()) && !worker(chunk.Span()).Ok?
    ensures |Share(worker, cached, Reached(worker, cached, chunk), fate)| ==
      |Share(worker, cached, {chunk.Span()}, fate)|
      + |Share(worker, cached, Reached(worker, cached, Subdivide(chunk)[0]), fate)|
      + |Share(worker, cached, Reached(worker, cached, Subdivide(chunk)[1]), fate)|
  {
    hide Share;
    var left, right := Subdivide(chunk)[0], Subdivide(chunk)[1];
    var l, r := Reached(worker, cached, left), Reached(worker, cached, right);
    ReachedWithin(worker, cached, left);
    ReachedWithin(worker, cached, right);
    ShareJoins(worker, cached, l, r, fate);
    ShareJoins(worker, cached, {chunk.Span()}, l + r, fate);
    assert Reached(worker, cached, chunk) == {chunk.Span()} + (l + r);
  }

  function Pow2(k: nat): nat {
    if k == 0 then 1 else 2 * Pow2(k - 1)
  }

  function CeilLog2(n: int): nat {
    if n <= 1 then 0 else 1 + CeilLog2((n + 1) / 2)
  }

  /** CeilLog2 is the least k with n <= 2^k. */
  lemma {:induction false} CeilLog2IsLeast(n: int)
    requires n >= 1
    ensures n <= Pow2(CeilLog2(n))
    ensures n > 1 ==> Pow2(CeilLog2(n) - 1) < n
  {
    if n > 1 {
      CeilLog2IsLeast((n + 1) / 2);
    }
  }

  lemma {:induction false} CeilLog2Monotone(a: int, b: int)
    requires a <= b
    ensures CeilLog2(a) <= CeilLog2(b)
  {
    if a > 1 {
      CeilLog2Monotone((a + 1) / 2, (b + 1) / 2);
    }
  }

  lemma HalvesAreShallower(chunk: Chunk)
    requires chunk.Pages() >= 2
    ensures var halves := Subdivide(chunk);
      CeilLog2(halves[1].Pages()) <= CeilLog2(halves[0].Pages()) == CeilLog2(chunk.Pages()) - 1
  {
    CeilLog2Monotone(Subdivide(chunk)[1].Pages(), Subdivide(chunk)[0].Pages());
  }

  /** The part of the chunk that an error is about really fails so. */
  ghost predicate Blamed(worker: Worker, cached: Cached, chunk: Chunk, depth: nat, error: RenderError) {
    && chunk.pageStart <= error.chunk.pageStart <= error.chunk.pageEnd <= chunk.pageEnd
    && !cached(error.chunk.Span())
    && match error
       case SubdivisionFloor(part, attempts) =>
         && part.Pages() == 1 && worker(part.Span()).OutOfMemory?
         && depth < attempts <= depth + CeilLog2(chunk.Pages()) + 1
       case RenderFailed(part, code) => worker(part.Span()) == Fails(code)
  }

  lemma BlamedItself(worker: Worker, cached: Cached, chunk: Chunk, depth: nat)
    requires chunk.Pages() >= 1 && !cached(chunk.Span())
    ensures worker(chunk.Span()).Fails? ==> Blamed(worker, cached, chunk, depth, RenderFailed(chunk, worker(chunk.Span()).code))
    ensures worker(chunk.Span()).OutOfMemory? && chunk.Pages() == 1 ==>
      Blamed(worker, cached, chunk, depth, SubdivisionFloor(chunk, depth + 1))
  {
  }

  lemma BlamedWithin(worker: Worker, cached: Cached, half: Chunk, chunk: Chunk, depth: nat, error: RenderError)
    requires Blamed(worker, cached, half, depth + 1, error)
    requires chunk.pageStart <= half.pageStart && half.pageEnd <= chunk.pageEnd && CeilLog2(half.Pages()) < CeilLog2(chunk.Pages())
    ensures Blamed(worker, cached, chunk, depth, error)
  {
    hide CeilLog2;
  }

  /** The conversion's counters, and two of the model's own: workers started, and levels of halves. */
  datatype Counters = Counters(rendered: nat, subdivisions: nat, cacheHits: nat, launches: nat, deepest: nat)

  /** After a tree that begins at this depth. */
  function Grown(c: Counters, t: Tally, depth: nat): Counters {
    Counters(c.rendered + t.renders, c.subdivisions + t.halvings, c.cacheHits + t.hits, c.launches + t.renders + t.halvings,
             Max(c.deepest, depth + t.levels))
  }

  lemma GrownTwice(c: Counters, a: Tally, b: Tally, depth: nat)
    ensures Grown(Grown(c, a, depth), b, depth) == Grown(c, Plus(a, b), depth)
    ensures Grown(c, Plus(a, b), depth) == Grown(c, Plus(b, a), depth)
  {
  }

  class Job {
    const doc: seq<Page>
    const worker: Worker
    const cached: Cached
    var rendered: nat
    var subdivisions: nat
    var cacheHits: nat
    var launches: nat
    var deepest: nat

    ghost function Now(): Counters
      reads this
    {
      Counters(rendered, subdivisions, cacheHits, launches, deepest)
    }

    constructor (doc: seq<Page>, worker: Worker, cached: Cached)
      ensures this.doc == doc && this.worker == worker && this.cached == cached
      ensures rendered == subdivisions == cacheHits == launches == deepest == 0
    {
      this.doc, this.worker, this.cached := doc, worker, cached;
      rendered, subdivisions, cacheHits, launches, deepest := 0, 0, 0, 0, 0;
    }

    /**
     Succeeds exactly when the chunk can be rendered at all, with exactly its pages, and then the
     counters have grown by its tally. However it ends, it starts at most 2s - 1 workers for s
     pages and goes at most ceil(log2 s) levels down; a floor error names one page of the chunk
     that runs out of memory by itself, any other error a range on which the worker failed, with
     the worker's code.
     */
    method RenderWithRetry(chunk: Chunk, depth: nat) returns (r: Result)
      requires Honest(doc, worker, cached)
      requires 1 <= chunk.pageStart <= chunk.pageEnd
      modifies this
      decreases chunk.Pages()
      ensures r.Rendered? <==> Renders(worker, cached, chunk)
      ensures r.Rendered? ==> chunk.pageStart - 1 <= |doc| && r.pages == Slice(doc, chunk.pageStart, chunk.pageEnd)
      ensures r.Rendered? ==> Now() == Grown(old(Now()), TallyOf(worker, cached, chunk), depth)
      ensures old(launches) <= launches <= old(launches) + 2 * chunk.Pages() - 1
      ensures Max(old(deepest), depth) <= deepest <= Max(old(deepest), depth + CeilLog2(chunk.Pages()))
      ensures r.Failed? ==> Blamed(worker, cached, chunk, depth, r.error)
    {
      hide Slice, CeilLog2, TallyOf, Renders, Blamed;
      if depth > deepest {
        deepest := depth;
      }
      if cached(chunk.Span()) {
        LeafOf(worker, cached, chunk);
        cacheHits := cacheHits + 1;
        return Rendered(Slice(doc, chunk.pageStart, chunk.pageEnd));
      }
      launches := launches + 1;
      BlamedItself(worker, cached, chunk, depth);
      var verdict := worker(chunk.Span());
      if verdict.Ok? {
        LeafOf(worker, cached, chunk);
        var output := RenderRange(doc, chunk.pageStart, chunk.pageEnd);
        rendered := rendered + 1;
        return Rendered(output.value);
      }
      if verdict.Fails? {
        LeafOf(worker, cached, chunk);
        return Failed(RenderFailed(chunk, verdict.code));
      }
      subdivisions := subdivisions + 1;
      var halves := Subdivide(chunk);
      if |halves| == 0 {
        LeafOf(worker, cached, chunk);
        return Failed(SubdivisionFloor(chunk, depth + 1));
      }
      HalvesOf(worker, cached, chunk);
      HalvesAreShallower(chunk);
      r := RenderHalves(chunk, halves[0], halves[1], depth);
    }

    /** The halves are rendered in either order; after one fails the other may be skipped. */
    method RenderHalves(chunk: Chunk, left: Chunk, right: Chunk, depth: nat) returns (r: Result)
      requires Honest(doc, worker, cached)
      requires 1 <= chunk.pageStart == left.pageStart <= left.pageEnd
      requires left.pageEnd + 1 == right.pageStart <= right.pageEnd == chunk.pageEnd
      requires CeilLog2(right.Pages()) <= CeilLog2(left.Pages()) == CeilLog2(chunk.Pages()) - 1
      modifies this
      decreases chunk.Pages(), 0
      ensures r.Rendered? <==> Renders(worker, cached, left) && Renders(worker, cached, right)
      ensures r.Rendered? ==> chunk.pageStart - 1 <= |doc| && r.pages == Slice(doc, chunk.pageStart, chunk.pageEnd)
      ensures r.Rendered? ==>
        Now() == Grown(old(Now()), Plus(TallyOf(worker, cached, left), TallyOf(worker, cached, right)), depth + 1)
      ensures old(launches) <= launches <= old(launches) + 2 * chunk.Pages() - 2
      ensures old(deepest) <= deepest <= Max(old(deepest), depth + CeilLog2(chunk.Pages()))
      ensures r.Failed? ==> Blamed(worker, cached, chunk, depth, r.error)
    {
      hide Renders, CeilLog2, Slice, TallyOf, Blamed, Grown, Plus;
      GrownTwice(Now(), TallyOf(worker, cached, left), TallyOf(worker, cached, right), depth + 1);
      GrownTwice(Now(), TallyOf(worker, cached, right), TallyOf(worker, cached, left), depth + 1);
      var leftFirst: bool := *;
      var first, second := if leftFirst then left else right, if leftFirst then right else left;
      var a := RenderWithRetry(first, depth + 1);
      if a.Failed? {
        BlamedWithin(worker, cached, first, chunk, depth, a.error);
        if * {
          var skipped := RenderWithRetry(second, depth + 1);
        }
        return a;
      }
      var b := RenderWithRetry(second, depth + 1);
      if b.Failed? {
        BlamedWithin(worker, cached, second, chunk, depth, b.error);
        return b;
      }
      SlicesJoin(doc, chunk.pageStart, left.pageEnd, chunk.pageEnd);
      r := Rendered(if leftFirst then a.pages + b.pages else b.pages + a.pages);
    }
  }

  // ---------------------------------------------------------------- a whole plan

  ghost function PlanPages(doc: seq<Page>, chunks: seq<Chunk>): seq<Page>
    requires forall c <- chunks :: 1 <= c.pageStart <= c.pageEnd && c.pageStart - 1 <= |doc|
  {
    if chunks == [] then []
    else PlanPages(doc, chunks[..|chunks| - 1]) + Slice(doc, chunks[|chunks| - 1].pageStart, chunks[|chunks| - 1].pageEnd)
  }

  /** The tallies of all chunks of a plan. */
  ghost function PlanTally(worker: Worker, cached: Cached, chunks: seq<Chunk>): Tally {
    if chunks == [] then Tally(0, 0, 0, 0)
    else Plus(PlanTally(worker, cached, chunks[..|chunks| - 1]), TallyOf(worker, cached, chunks[|chunks| - 1]))
  }

  /** Renders and hits together outnumber the halvings by the planned chunks; without a cache nothing is a hit. */
  lemma {:induction false} PlanTallyBalances(worker: Worker, cached: Cached, chunks: seq<Chunk>)
    ensures var t := PlanTally(worker, cached, chunks);
      && t.hits + t.renders == t.halvings + |chunks|
      && ((forall span :: !cached(span)) ==> t.hits == 0)
  {
    hide TallyOf;
    if chunks != [] {
      PlanTallyBalances(worker, cached, chunks[..|chunks| - 1]);
      TallyBalances(worker, cached, chunks[|chunks| - 1]);
    }
  }

  /** Concatenating the slices of a cover of 1..hi gives the document's first hi pages. */
  lemma {:induction false} CoverRebuildsDocument(doc: seq<Page>, chunks: seq<Chunk>)
    requires |chunks| > 0
    requires TilesByIndex(Spans(chunks), 1, chunks[|chunks| - 1].pageEnd)
    requires forall c <- chunks :: 1 <= c.pageStart <= c.pageEnd && c.pageStart - 1 <= |doc|
    ensures PlanPages(doc, chunks) == doc[..Min(chunks[|chunks| - 1].pageEnd, |doc|)]
  {
    var front, last := chunks[..|chunks| - 1], chunks[|chunks| - 1];
    var rs := Spans(chunks);
    if front == [] {
      assert rs[0] == last.Span();
    } else {
      assert Spans(front) == rs[..|front|];
      assert rs[|front|].0 == rs[|front| - 1].1 + 1;
      CoverRebuildsDocument(doc, front);
    }
  }

  /**
   One-shot dispatch: every chunk through RenderWithRetry, results in plan order, stopping at the
   first failure.
   */
  method DispatchOneShot(job: Job, chunks: seq<Chunk>, pageCount: int) returns (ok: bool, pages: seq<Page>)
    requires Honest(job.doc, job.worker, job.cached)
    requires pageCount > 0 && Tiles(Spans(chunks), 1, pageCount)
    modifies job
    ensures ok <==> forall c <- chunks :: Renders(job.worker, job.cached, c)
    ensures ok ==> pages == job.doc[..Min(pageCount, |job.doc|)]
    ensures ok ==>
      var t := PlanTally(job.worker, job.cached, chunks);
      && job.cacheHits == old(job.cacheHits) + t.hits && job.rendered == old(job.rendered) + t.renders
      && job.subdivisions == old(job.subdivisions) + t.halvings
  {
    hide TallyOf, Renders, Slice;
    pages := [];
    SpansOfCover(chunks, pageCount);
    for i := 0 to |chunks|
      invariant forall c <- chunks[..i] :: Renders(job.worker, job.cached, c)
      invariant forall c <- chunks[..i] :: c.pageStart - 1 <= |job.doc|
      invariant pages == PlanPages(job.doc, chunks[..i])
      invariant job.cacheHits == old(job.cacheHits) + PlanTally(job.worker, job.cached, chunks[..i]).hits
      invariant job.rendered == old(job.rendered) + PlanTally(job.worker, job.cached, chunks[..i]).renders
      invariant job.subdivisions == old(job.subdivisions) + PlanTally(job.worker, job.cached, chunks[..i]).halvings
    {
      var r := job.RenderWithRetry(chunks[i], 0);
      if r.Failed? {
        return false, [];
      }
      assert chunks[..i + 1] == chunks[..i] + [chunks[i]] && chunks[..i + 1][..i] == chunks[..i];
      pages := pages + r.pages;
    }
    assert chunks[..|chunks|] == chunks;
    TilesToIndex(Spans(chunks), 1, pageCount);
    CoverRebuildsDocument(job.doc, chunks);
    ok := true;
  }
}
