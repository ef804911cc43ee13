/** Choosing a plan, sizing chunks to the machine, and halving a chunk that ran out of memory. */
module Planner {
  import opened Basics
  import opened Types
  import opened PageSplit
  import opened SeamGroups

  const MIN_CHUNKS := 2
  const MIN_PAGES_FLOOR := 10
  const MIN_RENDER_BUDGET_MB := 50.0
  const RAM_SAFETY_MARGIN := 0.75

  /** The seam plan when there is one and it is balanced, otherwise the page-range split. */
  function PlanChunks(probe: ProbeResult, maxPages: int, maxMB: int): ChunkPlan {
    if probe.pageCount <= 0 then ChunkPlan([], 0, 0.0)
    else if probe.naturalSeams != [] && IsBalanced(GroupPlan(probe, maxPages, maxMB), maxPages, maxMB) then
      GroupPlan(probe, maxPages, maxMB)
    else SplitPlan(probe, maxPages, maxMB)
  }

  /** Both limits, relaxed by a half. */
  ghost predicate WithinRelaxedLimits(probe: ProbeResult, c: Chunk, maxPages: int, maxMB: int) {
    && c.Pages() as real <= maxPages as real * 1.5
    && Estimate(probe, c.Pages()) <= maxMB as real * 1.5
  }

  /**
   For a document without seams, or whose seams tile it, the plan is an ordered and numbered
   cover of 1..N. It either cuts only at seams and keeps within 1.5 times both limits, or obeys
   the limits themselves, single pages excepted.
   */
  lemma PlanIsExactCover(probe: ProbeResult, maxPages: int, maxMB: int)
    requires probe.pageCount > 0
    requires probe.naturalSeams == [] || Tiles(probe.naturalSeams, 1, probe.pageCount)
    ensures var plan := PlanChunks(probe, maxPages, maxMB);
      && plan.totalPages == probe.pageCount
      && Tiles(Spans(plan.chunks), 1, probe.pageCount)
      && Numbered(plan.chunks)
      && (|| (forall c <- plan.chunks :: AtSeams(probe.naturalSeams, c) && WithinRelaxedLimits(probe, c, maxPages, maxMB))
          || (forall c <- plan.chunks :: Allowed(probe, c.Span(), maxPages, maxMB)))
  {
    var plan := PlanChunks(probe, maxPages, maxMB);
    SplitIsMinimalCover(probe, maxPages, maxMB, []);
    if probe.naturalSeams != [] {
      GroupPlanKeepsSeams(probe, maxPages, maxMB);
      if plan == GroupPlan(probe, maxPages, maxMB) && IsBalanced(plan, maxPages, maxMB) {
        SpansOfCover(plan.chunks, probe.pageCount);
        forall c | c in plan.chunks ensures WithinRelaxedLimits(probe, c, maxPages, maxMB) {
          ChunkMBIsDirectEstimate(probe, plan, c);
        }
      }
    }
  }

  /**
   Tiling seams are used if and only if every group of them keeps within 1.5 times both limits; the
   chunks are marked accordingly.
   */
  lemma SeamsUsedIffBalanced(probe: ProbeResult, maxPages: int, maxMB: int)
    requires probe.pageCount > 0 && probe.naturalSeams != [] && Tiles(probe.naturalSeams, 1, probe.pageCount)
    ensures var plan, groups := PlanChunks(probe, maxPages, maxMB), GroupPlan(probe, maxPages, maxMB);
      var balanced := forall c <- groups.chunks :: WithinRelaxedLimits(probe, c, maxPages, maxMB);
      && plan == (if balanced then groups else SplitPlan(probe, maxPages, maxMB))
      && forall c <- plan.chunks :: c.naturalSeam <==> balanced
  {
    var groups := GroupPlan(probe, maxPages, maxMB);
    GroupPlanKeepsSeams(probe, maxPages, maxMB);
    SpansOfCover(groups.chunks, probe.pageCount);
    forall c | c in groups.chunks ensures ChunkMB(c, groups) == Estimate(probe, c.Pages()) {
      ChunkMBIsDirectEstimate(probe, groups, c);
    }
    hide EstimateChunkMB, SumMB, GroupFrom, Tiles, ChunkMB;
    assert IsBalanced(groups, maxPages, maxMB) <==> forall c <- groups.chunks :: WithinRelaxedLimits(probe, c, maxPages, maxMB);
  }

  /** The plan's estimate is the document's size, amplified, in MB. */
  lemma PlanEstimatesDocument(probe: ProbeResult, maxPages: int, maxMB: int)
    requires probe.pageCount > 0
    requires probe.naturalSeams == [] || Tiles(probe.naturalSeams, 1, probe.pageCount)
    ensures PlanChunks(probe, maxPages, maxMB).estimatedMB * 1048576.0 == (probe.sizeBytes * Amplification(probe.format)) as real
  {
    hide PlanChunks, Amplification, SumMB, Tiles;
    PlanIsExactCover(probe, maxPages, maxMB);
    EstimateIsSum(probe, maxPages, maxMB);
    CoverEstimate(probe, PlanChunks(probe, maxPages, maxMB).chunks);
    WholeInMB(probe.pageCount as real, RenderedBytes(probe));
  }

  lemma EstimateIsSum(probe: ProbeResult, maxPages: int, maxMB: int)
    requires probe.pageCount > 0
    ensures PlanChunks(probe, maxPages, maxMB).estimatedMB == SumMB(probe, PlanChunks(probe, maxPages, maxMB).chunks)
  {
    hide SumMB, GroupFrom, EqualWidth, IsBalanced;
  }

  lemma CoverEstimate(probe: ProbeResult, chunks: seq<Chunk>)
    requires probe.pageCount > 0 && Tiles(Spans(chunks), 1, probe.pageCount)
    ensures SumMB(probe, chunks) == probe.pageCount as real * RenderedBytes(probe) / (probe.pageCount as real * 1048576.0)
  {
    CoverIsNotEmpty(chunks, probe.pageCount);
    hide SumMB, EstimateChunkMB, RenderedBytes, Tiles;
    TilesToIndex(Spans(chunks), 1, probe.pageCount);
    assert Spans(chunks)[|chunks| - 1] == chunks[|chunks| - 1].Span();
    SumOverTiling(probe, chunks, 1);
    EstimateIsQuotient(probe, probe.pageCount);
  }

  lemma CoverIsNotEmpty(chunks: seq<Chunk>, n: int)
    requires n > 0 && Tiles(Spans(chunks), 1, n)
    ensures Spans(chunks) != []
  {
  }

  lemma WholeInMB(n: real, bytes: real)
    requires n > 0.0
    ensures n * bytes / (n * 1048576.0) * 1048576.0 == bytes
  {
    var d := n * 1048576.0;
    var x := n * bytes / d;
    assert x * d == n * bytes;
    assert x * 1048576.0 * n == bytes * n;
  }

  lemma SpansOfCover(chunks: seq<Chunk>, n: int)
    requires Tiles(Spans(chunks), 1, n)
    ensures forall c <- chunks :: 1 <= c.pageStart <= c.pageEnd <= n
  {
    TilesWithin(Spans(chunks), 1, n);
    forall c | c in chunks ensures 1 <= c.pageStart <= c.pageEnd <= n {
      var i :| 0 <= i < |chunks| && chunks[i] == c;
      assert Spans(chunks)[i] in Spans(chunks);
    }
  }

  /**
   Seams as the probe documents them, that is in order and with gaps allowed between them: the
   plan covers 1..N exactly if and only if it is not the seam plan, because there are no seams or
   they group out of balance, or the seams begin at 1 and end at N and no group ends at a gap.
   */
  lemma PlanCoversIffNoGapBetweenGroups(probe: ProbeResult, maxPages: int, maxMB: int)
    requires probe.pageCount > 0 && Ascending(probe.naturalSeams)
    requires probe.naturalSeams != [] ==> probe.naturalSeams[0].0 >= 1
    ensures Tiles(Spans(PlanChunks(probe, maxPages, maxMB).chunks), 1, probe.pageCount) <==>
      var seams := probe.naturalSeams;
      || seams == []
      || !IsBalanced(GroupPlan(probe, maxPages, maxMB), maxPages, maxMB)
      || (seams[0].0 == 1 && seams[|seams| - 1].1 == probe.pageCount && NoGapBetweenGroups(probe, maxPages, maxMB))
  {
    hide Tiles, GapsJoined, GroupFrom, SumMB, IsBalanced, NoGapBetweenGroups;
    SplitIsMinimalCover(probe, maxPages, maxMB, []);
    if probe.naturalSeams != [] {
      GroupPlanTilesIff(probe, maxPages, maxMB);
    }
  }

  /** Six slides of which the seams miss the fourth; each slide counts for one MB. */
  const GAPPY := ProbeResult(6, PPTX, [(1, 3), (5, 6)], 786432)

  lemma GappyGroups()
    ensures GroupPlan(GAPPY, 4, 50).chunks == [Chunk(0.0, 1, 3, true), Chunk(1.0, 5, 6, true)]
    ensures GroupPlan(GAPPY, 4, 50).estimatedMB == 5.0
  {
    var first, second := Chunk(0.0, 1, 3, true), Chunk(1.0, 5, 6, true);
    assert GAPPY.naturalSeams[1..] == [(5, 6)];
    assert [(5, 6)][1..] == [];
    assert GroupFrom(GAPPY, Take((5, 6)), [], 1, 4, 50) == [second];
    assert [first, second][..1] == [first] && [first][..0] == [];
    assert Estimate(GAPPY, 3) == 3.0 && Estimate(GAPPY, 2) == 2.0;
    assert SumMB(GAPPY, [first]) == SumMB(GAPPY, []) + Estimate(GAPPY, 3);
  }

  /** Under a limit of four pages a group of these seams ends at the gap: page 4 is in no chunk. */
  lemma GappySeamsLosePages()
    ensures var plan := PlanChunks(GAPPY, 4, 50);
      && plan.totalPages == 6
      && Spans(plan.chunks) == [(1, 3), (5, 6)]
      && !Tiles(Spans(plan.chunks), 1, 6)
  {
    hide SumMB, EstimateChunkMB, GroupFrom;
    var plan := GroupPlan(GAPPY, 4, 50);
    GappyGroups();
    assert IsBalanced(plan, 4, 50);
    assert Spans(plan.chunks) == [(1, 3), (5, 6)];
    assert Spans(plan.chunks)[1..] == [(5, 6)];
  }

  /** Under a limit of five they join across it: page 4 is covered, by a chunk of six pages, since only seam pages count. */
  lemma JoinedSeamsSwallowGap()
    ensures Spans(PlanChunks(GAPPY, 5, 50).chunks) == [(1, 6)]
  {
    hide SumMB, EstimateChunkMB;
    var whole := Chunk(0.0, 1, 6, true);
    assert GAPPY.naturalSeams[1..] == [(5, 6)] && [(5, 6)][1..] == [];
    FivePagesFit();
    var plan := GroupPlan(GAPPY, 5, 50);
    assert Joins(GAPPY, Take((1, 3)), (5, 6), 5, 50);
    assert GroupFrom(GAPPY, Take((1, 3)), [(5, 6)], 0, 5, 50) == [whole];
    assert plan.chunks == [whole];
    WholeIsBalanced(plan);
    assert Spans(plan.chunks) == [(1, 6)];
  }

  lemma FivePagesFit()
    ensures Estimate(GAPPY, 5) == 5.0
  {
  }

  lemma WholeIsBalanced(plan: ChunkPlan)
    requires plan == GroupPlan(GAPPY, 5, 50) && plan.chunks == [Chunk(0.0, 1, 6, true)]
    ensures IsBalanced(plan, 5, 50)
  {
    assert plan.chunks[..0] == [];
    assert plan.estimatedMB == SumMB(GAPPY, []) + Estimate(GAPPY, 6) == 6.0;
  }

  // ---------------------------------------------------------------- sizing chunks to the machine

  function SubprocessOverheadMB(format: Format): nat {
    match format
    case DOCX => 200
    case PPTX => 300
    case XLSX => 250
    case PDF => 100
    case OtherFormat(_) => 0
  }

  function MaxPagesCeiling(format: Format): nat {
    match format
    case DOCX => 5000
    case PPTX => 5000
    case PDF => 2000
    case XLSX => 2000
    case OtherFormat(_) => 5000
  }

  /** What a worker may spend on pages once the format's fixed overhead is paid. */
  function RenderBudgetMB(workerRAMBytes: int, format: Format): (mb: real)
    ensures mb >= MIN_RENDER_BUDGET_MB
  {
    var mb := workerRAMBytes as real / BYTES_PER_MB * RAM_SAFETY_MARGIN - SubprocessOverheadMB(format) as real;
    if mb < MIN_RENDER_BUDGET_MB then MIN_RENDER_BUDGET_MB else mb
  }

  function PerPageMB(probe: ProbeResult): (mb: real)
    requires probe.pageCount > 0
    ensures mb >= 0.0
  {
    probe.sizeBytes as real / probe.pageCount as real * Amplification(probe.format) as real / BYTES_PER_MB
  }

  function DesiredChunks(parallel: int): (d: int)
    ensures d >= 2
  {
    Max(MIN_CHUNKS, parallel)
  }

  lemma ScaleBounds(a: real, b: real, x: real)
    requires x > 0.0
    ensures a <= b ==> a * x <= b * x
    ensures a < b ==> a * x < b * x
  {
  }

  lemma QuotientBounds(b: real, c: real, lo: real, hi: real)
    requires c > 0.0 && lo <= b / c < hi
    ensures lo * c <= b < hi * c
  {
    var r := b / c;
    assert r * c == b;
    ScaleBounds(lo, r, c);
    ScaleBounds(r, hi, c);
  }

  /** The pages whose cost stays within the budget. */
  function PagesByRAM(budgetMB: real, perPageMB: real): (pages: int)
    requires budgetMB > 0.0 && perPageMB > 0.0
    ensures pages as real * perPageMB <= budgetMB < (pages + 1) as real * perPageMB
  {
    var pages := (budgetMB / perPageMB).Floor;
    QuotientBounds(budgetMB, perPageMB, pages as real, (pages + 1) as real);
    pages
  }

  /** The largest chunk that still gives every worker one. */
  function PagesByParallelism(pageCount: int, parallel: int): (pages: int)
    requires pageCount > 0
    ensures pages * DesiredChunks(parallel) <= pageCount < pages * DesiredChunks(parallel) + DesiredChunks(parallel)
  {
    DivBounds(pageCount, DesiredChunks(parallel));
    pageCount / DesiredChunks(parallel)
  }

  lemma FewerFit(pages: int, most: int, perPageMB: real, budgetMB: real)
    requires perPageMB > 0.0 && most as real * perPageMB <= budgetMB
    ensures pages <= most ==> pages as real * perPageMB <= budgetMB
  {
    ScaleBounds(pages as real, most as real, perPageMB);
  }

  /** The size for a document of this many pages, given what a page costs and what a worker may spend. */
  function ClampedSize(pageCount: int, budgetMB: real, perPageMB: real, parallel: int, minPages: int, maxPages: int): (pages: int)
    requires pageCount > 0 && budgetMB > 0.0
    ensures pages > minPages && perPageMB > 0.0 ==> pages as real * perPageMB <= budgetMB
    ensures pages > minPages && pageCount > minPages && perPageMB > 0.0 ==> pages <= PagesByParallelism(pageCount, parallel)
  {
    if perPageMB <= 0.0 then maxPages
    else
      var byRAM := PagesByRAM(budgetMB, perPageMB);
      var optimal := if pageCount > minPages then Min(byRAM, PagesByParallelism(pageCount, parallel)) else byRAM;
      var pages := Max(Min(optimal, maxPages), minPages);
      FewerFit(pages, byRAM, perPageMB, budgetMB);
      pages
  }

  /** ceiling and floor of 0 or less stand for the format's ceiling and the default floor. */
  function AdaptiveMaxPages(probe: ProbeResult, workerRAMBytes: int, parallel: int, ceiling: int, floor: int): int {
    var minPages := PagesFloor(floor);
    var maxPages := if ceiling <= 0 then MaxPagesCeiling(probe.format) else ceiling;
    if probe.pageCount <= 0 || probe.sizeBytes <= 0 then minPages
    else
      ClampedSize(probe.pageCount, RenderBudgetMB(workerRAMBytes, probe.format), PerPageMB(probe), parallel, minPages, maxPages)
  }

  function PagesFloor(floor: int): int {
    if floor <= 0 then MIN_PAGES_FLOOR else floor
  }

  /** An adaptive size above the floor fits a worker's render budget. */
  lemma AdaptiveSizeFitsBudget(probe: ProbeResult, workerRAMBytes: int, parallel: int, ceiling: int, floor: int)
    requires AdaptiveMaxPages(probe, workerRAMBytes, parallel, ceiling, floor) > PagesFloor(floor)
    ensures Estimate(probe, AdaptiveMaxPages(probe, workerRAMBytes, parallel, ceiling, floor))
            <= RenderBudgetMB(workerRAMBytes, probe.format)
  {
    hide EstimateChunkMB, PerPageMB, RenderBudgetMB, ClampedSize;
    var pages := AdaptiveMaxPages(probe, workerRAMBytes, parallel, ceiling, floor);
    EstimateByPage(probe, pages);
    if PerPageMB(probe) == 0.0 {
      assert pages as real * PerPageMB(probe) == 0.0;
    }
  }

  lemma EstimateByPage(probe: ProbeResult, pages: int)
    requires probe.pageCount > 0 && pages > 0
    ensures Estimate(probe, pages) == pages as real * PerPageMB(probe)
  {
    var q, amp := probe.sizeBytes as real / probe.pageCount as real, Amplification(probe.format) as real;
    Reassociate(q, pages as real, amp);
  }

  lemma Reassociate(q: real, p: real, amp: real)
    ensures q * p * amp / BYTES_PER_MB == p * (q * amp / BYTES_PER_MB)
  {
    assert q * p * amp == p * (q * amp);
  }

  /** So many pages cost no more than three quarters of a worker's memory, less the format's overhead, or 50 MB. */
  ghost predicate WithinRAM(probe: ProbeResult, pages: int, workerRAMBytes: int) {
    var cost := pages as real * (probe.sizeBytes as real * Amplification(probe.format) as real);
    var n := probe.pageCount as real;
    || cost <= n * (50.0 * 1048576.0)
    || cost <= n * (0.75 * workerRAMBytes as real - SubprocessOverheadMB(probe.format) as real * 1048576.0)
  }

  /** A document longer than the floor still gives every worker a chunk, and is cut in two at least. */
  ghost predicate LeavesWork(probe: ProbeResult, pages: int, parallel: int, minPages: int) {
    probe.pageCount > minPages ==> pages * Max(2, parallel) <= probe.pageCount
  }

  function Ceiling(probe: ProbeResult, ceiling: int): int {
    if ceiling <= 0 then MaxPagesCeiling(probe.format) else ceiling
  }

  lemma CrossBudget(q: real, bytes: real, n: real, budgetMB: real)
    requires n > 0.0
    ensures q * (bytes / n / 1048576.0) <= budgetMB <==> q * bytes <= n * (budgetMB * 1048576.0)
  {
    var x := bytes / n / 1048576.0;
    assert x * 1048576.0 == bytes / n;
    assert x * 1048576.0 * n == bytes;
    var d := n * 1048576.0;
    assert x * d == bytes;
    Shift(q, x, d, bytes);
    ScaleBounds(q * x, budgetMB, d);
    ScaleBounds(budgetMB, q * x, d);
    assert budgetMB * d == n * (budgetMB * 1048576.0);
  }

  lemma Shift(q: real, x: real, d: real, y: real)
    requires x * d == y
    ensures q * x * d == q * y
  {
  }

  lemma BudgetInBytes(workerRAMBytes: int, format: Format)
    ensures var overhead := SubprocessOverheadMB(format) as real;
      var bytes := 0.75 * workerRAMBytes as real - overhead * 1048576.0;
      RenderBudgetMB(workerRAMBytes, format) * 1048576.0 == if bytes < 50.0 * 1048576.0 then 50.0 * 1048576.0 else bytes
  {
  }

  lemma PagesByRAMIs(budgetMB: real, perPageMB: real, q: int)
    requires budgetMB > 0.0 && perPageMB > 0.0
    ensures q <= PagesByRAM(budgetMB, perPageMB) <==> q as real * perPageMB <= budgetMB
  {
    hide PagesByRAM;
    var pages := PagesByRAM(budgetMB, perPageMB);
    if q <= pages {
      ScaleBounds(q as real, pages as real, perPageMB);
    } else {
      ScaleBounds((pages + 1) as real, q as real, perPageMB);
    }
  }

  lemma ParallelismIs(pageCount: int, parallel: int, q: int)
    requires pageCount > 0
    ensures q <= PagesByParallelism(pageCount, parallel) <==> q * Max(2, parallel) <= pageCount
  {
    hide PagesByParallelism;
    var each, d := PagesByParallelism(pageCount, parallel), DesiredChunks(parallel);
    if q <= each {
      MulMono(q, each, d);
    } else {
      MulMono(each + 1, q, d);
    }
  }

  lemma RAMInPages(probe: ProbeResult, workerRAMBytes: int, q: int)
    requires probe.pageCount > 0 && PerPageMB(probe) > 0.0
    ensures q <= PagesByRAM(RenderBudgetMB(workerRAMBytes, probe.format), PerPageMB(probe)) <==> WithinRAM(probe, q, workerRAMBytes)
  {
    hide SubprocessOverheadMB, Amplification, RenderBudgetMB, PagesByRAM;
    var budget, cost, n := RenderBudgetMB(workerRAMBytes, probe.format), PerPageMB(probe), probe.pageCount as real;
    var bytes := probe.sizeBytes as real * Amplification(probe.format) as real;
    assert cost == bytes / n / 1048576.0 by { PerPageInBytes(probe); }
    PagesByRAMIs(budget, cost, q);
    CrossBudget(q as real, bytes, n, budget);
    BudgetInBytes(workerRAMBytes, probe.format);
    var spare := 0.75 * workerRAMBytes as real - SubprocessOverheadMB(probe.format) as real * 1048576.0;
    ScaleBounds(spare, 50.0 * 1048576.0, n);
    ScaleBounds(50.0 * 1048576.0, spare, n);
  }

  lemma PerPageInBytes(probe: ProbeResult)
    requires probe.pageCount > 0
    ensures PerPageMB(probe) == probe.sizeBytes as real * Amplification(probe.format) as real / probe.pageCount as real / 1048576.0
  {
    hide Amplification;
    var size, n, amp := probe.sizeBytes as real, probe.pageCount as real, Amplification(probe.format) as real;
    var q := size / n;
    assert q * n == size;
    assert q * amp * n == size * amp;
    DivideBack(q * amp, n, size * amp);
  }

  /**
   The adaptive size is the largest there is: between the floor and the ceiling, a size is at most
   this one if and only if so many pages fit a worker's memory and leave every worker a chunk.
   */
  lemma AdaptiveSizeIsLargest(probe: ProbeResult, workerRAMBytes: int, parallel: int, ceiling: int, floor: int, q: int)
    requires probe.pageCount > 0 && probe.sizeBytes > 0
    ensures var lo, hi := if floor <= 0 then 10 else floor, Ceiling(probe, ceiling);
      var size := AdaptiveMaxPages(probe, workerRAMBytes, parallel, ceiling, floor);
      if Amplification(probe.format) == 0 then size == hi
      else
        && lo <= size <= Max(lo, hi)
        && (lo < q <= hi ==>
              (q <= size <==> WithinRAM(probe, q, workerRAMBytes) && LeavesWork(probe, q, parallel, lo)))
  {
    hide SubprocessOverheadMB, Amplification, RenderBudgetMB, PerPageMB, PagesByRAM, WithinRAM, PagesByParallelism, MaxPagesCeiling;
    if Amplification(probe.format) > 0 {
      PerPagePositive(probe);
      RAMInPages(probe, workerRAMBytes, q);
      ParallelismIs(probe.pageCount, parallel, q);
    } else {
      PerPageIsNothing(probe);
    }
  }

  /** The adaptive size for a document of 4000 pages and 4000 MB, with workers of 1 GB, four at once. */
  function LargeDocumentSize(format: Format): int {
    AdaptiveMaxPages(ProbeResult(4000, format, [], 4194304000), 1073741824, 4, 0, 0)
  }

  /** For one of 40000 pages and 40 KB. */
  function LongDocumentSize(format: Format): int {
    AdaptiveMaxPages(ProbeResult(40000, format, [], 40960), 1073741824, 4, 0, 0)
  }

  lemma LargestIs(probe: ProbeResult, workerRAMBytes: int, parallel: int, q: int)
    requires probe.pageCount > 0 && probe.sizeBytes > 0 && Amplification(probe.format) > 0 && 10 < q <= MaxPagesCeiling(probe.format)
    requires WithinRAM(probe, q, workerRAMBytes) && LeavesWork(probe, q, parallel, 10)
    requires q == MaxPagesCeiling(probe.format) || !(WithinRAM(probe, q + 1, workerRAMBytes) && LeavesWork(probe, q + 1, parallel, 10))
    ensures AdaptiveMaxPages(probe, workerRAMBytes, parallel, 0, 0) == q
  {
    hide WithinRAM, AdaptiveMaxPages, MaxPagesCeiling;
    AdaptiveSizeIsLargest(probe, workerRAMBytes, parallel, 0, 0, q);
    if q < MaxPagesCeiling(probe.format) {
      AdaptiveSizeIsLargest(probe, workerRAMBytes, parallel, 0, 0, q + 1);
    }
  }

  /** What the formats' tables come to: the memory decides for a large document, the ceiling for a long one. */
  lemma AdaptiveSizesByFormat()
    ensures LargeDocumentSize(DOCX) == 113 && LargeDocumentSize(PPTX) == 58
    ensures LargeDocumentSize(XLSX) == 129 && LargeDocumentSize(PDF) == 334
    ensures LongDocumentSize(DOCX) == LongDocumentSize(PPTX) == 5000
    ensures LongDocumentSize(PDF) == LongDocumentSize(XLSX) == 2000
    ensures forall name :: LongDocumentSize(OtherFormat(name)) == 5000
  {
    hide AdaptiveMaxPages;
    LargestIs(ProbeResult(4000, DOCX, [], 4194304000), 1073741824, 4, 113);
    LargestIs(ProbeResult(4000, PPTX, [], 4194304000), 1073741824, 4, 58);
    LargestIs(ProbeResult(4000, XLSX, [], 4194304000), 1073741824, 4, 129);
    LargestIs(ProbeResult(4000, PDF, [], 4194304000), 1073741824, 4, 334);
    LargestIs(ProbeResult(40000, DOCX, [], 40960), 1073741824, 4, 5000);
    LargestIs(ProbeResult(40000, PPTX, [], 40960), 1073741824, 4, 5000);
    LargestIs(ProbeResult(40000, PDF, [], 40960), 1073741824, 4, 2000);
    LargestIs(ProbeResult(40000, XLSX, [], 40960), 1073741824, 4, 2000);
    forall name ensures LongDocumentSize(OtherFormat(name)) == 5000 {
      AdaptiveSizeIsLargest(ProbeResult(40000, OtherFormat(name), [], 40960), 1073741824, 4, 0, 0, 0);
    }
  }

  lemma PerPageIsNothing(probe: ProbeResult)
    requires probe.pageCount > 0 && Amplification(probe.format) == 0
    ensures PerPageMB(probe) == 0.0
  {
  }

  /**
   A DOCX or PDF of at least ten pages per wanted chunk, without seams, is cut into at least
   max(2, parallel) chunks, whatever the configured page limit.
   */
  lemma PlanKeepsWorkersBusy(probe: ProbeResult, workerRAMBytes: int, parallel: int, maxPagesPerChunk: int, maxMB: int)
    requires probe.format == DOCX || probe.format == PDF
    requires probe.sizeBytes > 0 && probe.naturalSeams == []
    requires probe.pageCount >= 10 * Max(2, parallel)
    ensures var limit := Min(AdaptiveMaxPages(probe, workerRAMBytes, parallel, 0, 0), maxPagesPerChunk);
      |PlanChunks(probe, limit, maxMB).chunks| >= Max(2, parallel)
  {
    hide EstimateChunkMB, PerPageMB, RenderBudgetMB, ClampedSize, PagesPerMBLimit, SumMB;
    var n, d := probe.pageCount, DesiredChunks(parallel);
    var adaptive := AdaptiveMaxPages(probe, workerRAMBytes, parallel, 0, 0);
    var k := SplitWidth(probe, Min(adaptive, maxPagesPerChunk), maxMB);
    PerPagePositive(probe);
    var each := PagesByParallelism(n, parallel);
    if each < MIN_PAGES_FLOOR { MulMono(each + 1, MIN_PAGES_FLOOR, d); }
    assert k <= each;
    NarrowChunksAreMany(n, k, d, each);
  }

  lemma NarrowChunksAreMany(n: int, k: int, d: int, each: int)
    requires n > 0 && 0 < k <= each && d > 0 && each * d <= n
    ensures CeilCount(n, k) >= d
  {
    var c := CeilCount(n, k);
    MulMono(k, each, c);
    assert c * k == k * c;
    Cancel(each, d, c);
  }

  lemma Cancel(x: int, a: int, b: int)
    requires x > 0 && x * a <= x * b
    ensures a <= b
  {
  }

  lemma PerPagePositive(probe: ProbeResult)
    requires probe.pageCount > 0 && probe.sizeBytes > 0 && Amplification(probe.format) > 0
    ensures PerPageMB(probe) > 0.0
  {
    var q := probe.sizeBytes as real / probe.pageCount as real;
    assert q > 0.0;
    assert q * Amplification(probe.format) as real > 0.0;
  }

  // ---------------------------------------------------------------- halving

  /** The two halves of a chunk; none for a single page. */
  function Subdivide(chunk: Chunk): seq<Chunk> {
    var span := chunk.Pages();
    if span <= 1 then []
    else
      var mid := chunk.pageStart + (span + 1) / 2 - 1;
      [Chunk(chunk.index, chunk.pageStart, mid, false), Chunk(chunk.index + 0.5, mid + 1, chunk.pageEnd, false)]
  }

  /** Halving tiles the chunk with two shorter ones, the left one at most a page longer. */
  lemma SubdivideTiles(chunk: Chunk)
    requires chunk.Pages() >= 2
    ensures var halves := Subdivide(chunk);
      && |halves| == 2
      && Tiles(Spans(halves), chunk.pageStart, chunk.pageEnd)
      && halves[1].Pages() <= halves[0].Pages() <= halves[1].Pages() + 1
      && halves[0].Pages() < chunk.Pages()
  {
    var rs := Spans(Subdivide(chunk));
    assert rs[1..][1..] == [];
  }
}
