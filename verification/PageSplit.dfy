/** The size estimate and the page-range split of the chunk planner. */
module PageSplit {
  import opened Basics
  import opened Types

  const BYTES_PER_MB: real := 1048576.0

  function Amplification(format: Format): nat {
    match format
    case DOCX => 5
    case PPTX => 8
    case XLSX => 4
    case PDF => 2
    case OtherFormat(_) => 0
  }

  /** The pro-rated size, in MB, of a chunk of the given number of pages. */
  function EstimateChunkMB(pages: int, totalPages: int, sizeBytes: nat, format: Format): real {
    if totalPages <= 0 || pages <= 0 then 0.0
    else sizeBytes as real / totalPages as real * pages as real * Amplification(format) as real / BYTES_PER_MB
  }

  function Estimate(probe: ProbeResult, pages: int): real {
    EstimateChunkMB(pages, probe.pageCount, probe.sizeBytes, probe.format)
  }

  function SumMB(probe: ProbeResult, chunks: seq<Chunk>): real {
    if chunks == [] then 0.0
    else SumMB(probe, chunks[..|chunks| - 1]) + Estimate(probe, chunks[|chunks| - 1].Pages())
  }

  method TotalMB(probe: ProbeResult, chunks: seq<Chunk>) returns (total: real)
    ensures total == SumMB(probe, chunks)
  {
    total := 0.0;
    for i := 0 to |chunks|
      invariant total == SumMB(probe, chunks[..i])
    {
      total := total + Estimate(probe, chunks[i].Pages());
      assert chunks[..i + 1][..i] == chunks[..i];
    }
    assert chunks[..|chunks|] == chunks;
  }

  // ---------------------------------------------------------------- page-range split

  /** A chunk of this many pages respects both limits. */
  predicate Fits(probe: ProbeResult, pages: int, maxPages: int, maxMB: int) {
    pages <= maxPages && Estimate(probe, pages) <= maxMB as real
  }

  /** The amplified size of the whole document. */
  function RenderedBytes(probe: ProbeResult): (bytes: real)
    ensures bytes >= 0.0
  {
    probe.sizeBytes as real * Amplification(probe.format) as real
  }

  /** The number of pages whose estimate stays within maxMB, in closed form. */
  function PagesPerMBLimit(probe: ProbeResult, maxMB: int): int
    requires probe.pageCount > 0
  {
    var bytes := RenderedBytes(probe);
    if bytes > 0.0 then PagesWithin(bytes, probe.pageCount as real, maxMB as real)
    else if maxMB >= 0 then probe.pageCount
    else 0
  }

  /** Pages that fit in limitMB when n pages amount to the given bytes. */
  function PagesWithin(bytes: real, n: real, limitMB: real): int
    requires bytes > 0.0
  {
    (limitMB * BYTES_PER_MB * n / bytes).Floor
  }

  /** The chunk width the greedy split settles on. */
  function SplitWidth(probe: ProbeResult, maxPages: int, maxMB: int): (k: int)
    requires probe.pageCount > 0
    ensures k >= 1
  {
    Max(1, Min(maxPages, PagesPerMBLimit(probe, maxMB)))
  }

  function CeilDiv(n: int, k: int): int
    requires k > 0
  {
    (n + k - 1) / k
  }

  /** N pages cut into chunks of k pages each, the last one holding what is left. */
  function EqualWidth(n: int, k: int): seq<Chunk>
    requires n > 0 && k > 0
  {
    seq(CeilCount(n, k), i requires 0 <= i => WidthChunk(n, k, i))
  }

  function WidthChunk(n: int, k: int, i: nat): Chunk {
    Chunk(i as real, i * k + 1, Min((i + 1) * k, n), false)
  }

  function CeilCount(n: int, k: int): (c: nat)
    requires n > 0 && k > 0
    ensures (c - 1) * k < n <= c * k
    ensures c > 0
  {
    var c := CeilDiv(n, k);
    DivBounds(n + k - 1, k);
    c
  }

  lemma DivBounds(a: int, k: int)
    requires k > 0
    ensures a / k * k <= a < a / k * k + k
  {
    assert a == a / k * k + a % k;
  }

  /** Within the document, the MB limit is a limit on the number of pages. */
  lemma FitsIsABound(probe: ProbeResult, pages: int, maxMB: int)
    requires probe.pageCount > 0 && 1 <= pages <= probe.pageCount
    ensures Estimate(probe, pages) <= maxMB as real <==> pages <= PagesPerMBLimit(probe, maxMB)
  {
    var n, bytes := probe.pageCount as real, RenderedBytes(probe);
    EstimateIsQuotient(probe, pages);
    if bytes > 0.0 {
      BoundBySolving(pages, bytes, n, maxMB as real);
    } else {
      assert pages as real * bytes == 0.0;
    }
  }

  lemma EstimateIsQuotient(probe: ProbeResult, pages: int)
    requires probe.pageCount > 0 && pages >= 1
    ensures Estimate(probe, pages) == pages as real * RenderedBytes(probe) / (probe.pageCount as real * BYTES_PER_MB)
  {
    EstimateAsQuotient(probe.sizeBytes as real, probe.pageCount as real, pages as real, Amplification(probe.format) as real);
  }

  lemma Regroup(a: real, b: real, c: real)
    ensures a * (c * b) == a * b * c
  {
  }

  lemma BoundBySolving(pages: int, bytes: real, n: real, limitMB: real)
    requires bytes > 0.0 && n > 0.0
    ensures pages as real * bytes / (n * BYTES_PER_MB) <= limitMB <==> pages <= PagesWithin(bytes, n, limitMB)
  {
    var d, x := n * BYTES_PER_MB, limitMB * BYTES_PER_MB * n;
    assert d > 0.0;
    Regroup(limitMB, BYTES_PER_MB, n);
    CrossMultiply(pages as real, bytes, d, limitMB, x);
    FloorBound(pages, x / bytes);
    assert PagesWithin(bytes, n, limitMB) == (x / bytes).Floor;
    assert pages as real * bytes / d <= limitMB <==> pages as real <= x / bytes;
    assert pages as real <= x / bytes <==> pages <= (x / bytes).Floor;
    assert pages as real * bytes / d <= limitMB <==> pages <= (x / bytes).Floor;
  }

  lemma EstimateAsQuotient(size: real, n: real, p: real, amp: real)
    requires n > 0.0
    ensures size / n * p * amp / BYTES_PER_MB == p * (size * amp) / (n * BYTES_PER_MB)
  {
    var q := size / n;
    assert q * n == size;
    var e := q * p * amp / BYTES_PER_MB;
    assert e * BYTES_PER_MB == q * p * amp;
    calc {
      e * (n * BYTES_PER_MB);
      (e * BYTES_PER_MB) * n;
      (q * p * amp) * n;
      (q * n) * p * amp;
      p * (size * amp);
    }
    DivideBack(e, n * BYTES_PER_MB, p * (size * amp));
  }

  lemma DivideBack(x: real, d: real, y: real)
    requires d > 0.0 && x * d == y
    ensures x == y / d
  {
  }

  lemma CrossMultiply(p: real, a: real, d: real, m: real, x: real)
    requires a > 0.0 && d > 0.0 && x == m * d
    ensures p * a / d <= m <==> p <= x / a
  {
    var l, r := p * a / d, x / a;
    assert l * d == p * a && r * a == x;
    if l <= m {
      assert l * d <= m * d;
      assert p * a <= r * a;
      assert p <= r;
    }
    if p <= r {
      assert p * a <= r * a;
      assert l * d <= m * d;
      assert l <= m;
    }
  }

  lemma FloorBound(i: int, x: real)
    ensures i as real <= x <==> i <= x.Floor
  {
  }

  /** Up to the end of the document, growing a chunk stops exactly at the closed-form width. */
  lemma FitsUpToWidth(probe: ProbeResult, pages: int, maxPages: int, maxMB: int)
    requires probe.pageCount > 0 && 2 <= pages <= probe.pageCount
    ensures Fits(probe, pages, maxPages, maxMB) <==> pages <= SplitWidth(probe, maxPages, maxMB)
  {
    FitsIsABound(probe, pages, maxMB);
  }

  /** The greedy loop: the plan it builds is the equal-width split, with its summed estimate. */
  method PageRangeSplit(probe: ProbeResult, maxPages: int, maxMB: int) returns (plan: ChunkPlan)
    requires probe.pageCount > 0
    ensures plan == SplitPlan(probe, maxPages, maxMB)
  {
    var n := probe.pageCount;
    ghost var k := SplitWidth(probe, maxPages, maxMB);
    ghost var want := EqualWidth(n, k);
    var chunks: seq<Chunk> := [];
    var cursor := 1;
    while cursor <= n
      invariant |chunks| <= |want|
      invariant chunks == want[..|chunks|]
      invariant cursor == Min(|chunks| * k, n) + 1
      invariant cursor <= n ==> |chunks| < |want|
      invariant cursor > n ==> |chunks| == |want|
      decreases n - cursor
    {
      ghost var i := |chunks|;
      var end := cursor;
      while end + 1 <= n
        invariant cursor <= end <= n
        invariant end - cursor + 1 <= k
        decreases n - end
      {
        var candidate := end + 1 - cursor + 1;
        FitsUpToWidth(probe, candidate, maxPages, maxMB);
        if candidate > maxPages {
          break;
        }
        if Estimate(probe, candidate) > maxMB as real {
          break;
        }
        end := end + 1;
      }
      assert end == n || end - cursor + 1 == k;
      NextWidth(n, k, i);
      assert end == Min((i + 1) * k, n);
      chunks := chunks + [Chunk(|chunks| as real, cursor, end, false)];
      cursor := end + 1;
    }
    assert chunks == want;
    var total := TotalMB(probe, chunks);
    plan := ChunkPlan(chunks, n, total);
  }

  lemma NextWidth(n: int, k: int, i: nat)
    requires n > 0 && k > 0 && i * k < n
    ensures i < CeilCount(n, k)
    ensures (i + 1) * k == i * k + k
    ensures (i + 1) * k < n <==> i + 1 < CeilCount(n, k)
  {
    var c := CeilCount(n, k);
    if i >= c { MulMono(c, i, k); }
    if i + 1 >= c { MulMono(c, i + 1, k); }
    if i + 1 < c { MulMono(i + 1, c - 1, k); }
  }

  lemma MulMono(a: int, b: int, k: int)
    requires a <= b && k >= 0
    ensures a * k <= b * k
  {
  }

  function SplitPlan(probe: ProbeResult, maxPages: int, maxMB: int): ChunkPlan
    requires probe.pageCount > 0
  {
    var chunks := EqualWidth(probe.pageCount, SplitWidth(probe, maxPages, maxMB));
    ChunkPlan(chunks, probe.pageCount, SumMB(probe, chunks))
  }

  // ---------------------------------------------------------------- what the split guarantees

  lemma WidthChunkAt(n: int, k: int, i: nat)
    requires n > 0 && k > 0 && i < CeilCount(n, k)
    ensures 1 <= WidthChunk(n, k, i).Pages() <= k
    ensures i == 0 ==> WidthChunk(n, k, i).pageStart == 1
    ensures i + 1 == CeilCount(n, k) ==> WidthChunk(n, k, i).pageEnd == n
    ensures i + 1 < CeilCount(n, k) ==> WidthChunk(n, k, i + 1).pageStart == WidthChunk(n, k, i).pageEnd + 1
  {
    MulMono(i, CeilCount(n, k) - 1, k);
    NextWidth(n, k, i);
  }

  lemma EqualWidthTiles(n: int, k: int)
    requires n > 0 && k > 0
    ensures Tiles(Spans(EqualWidth(n, k)), 1, n)
    ensures Numbered(EqualWidth(n, k))
    ensures forall c <- EqualWidth(n, k) :: 1 <= c.Pages() <= k
  {
    var chunks := EqualWidth(n, k);
    forall i | 0 <= i < |chunks|
      ensures 1 <= chunks[i].Pages() <= k
      ensures i == 0 ==> chunks[i].pageStart == 1
      ensures i + 1 == |chunks| ==> chunks[i].pageEnd == n
      ensures i + 1 < |chunks| ==> chunks[i + 1].pageStart == chunks[i].pageEnd + 1
    {
      WidthChunkAt(n, k, i);
    }
    ChunksTile(chunks, n);
  }

  lemma ChunksTile(chunks: seq<Chunk>, n: int)
    requires chunks != []
    requires chunks[0].pageStart == 1 && chunks[|chunks| - 1].pageEnd == n
    requires forall c <- chunks :: c.Pages() >= 1
    requires forall i :: 0 <= i && i + 1 < |chunks| ==> chunks[i + 1].pageStart == chunks[i].pageEnd + 1
    ensures Tiles(Spans(chunks), 1, n)
  {
    var rs := Spans(chunks);
    forall i | 0 < i < |rs| ensures rs[i].0 == rs[i - 1].1 + 1 {
      assert chunks[i - 1 + 1].pageStart == chunks[i - 1].pageEnd + 1;
    }
    forall i | 0 <= i < |rs| ensures rs[i].0 <= rs[i].1 {
      assert chunks[i].Pages() >= 1;
    }
    TilesFromIndex(rs, 1, n);
  }

  /** A range that may stand alone in a cover: a single page, or one within both limits. */
  predicate Allowed(probe: ProbeResult, span: Span, maxPages: int, maxMB: int) {
    var pages := span.1 - span.0 + 1;
    pages == 1 || (pages <= maxPages && Estimate(probe, pages) <= maxMB as real)
  }

  lemma {:induction false} CoverNeedsRanges(rs: seq<Span>, lo: int, hi: int, k: int)
    requires Tiles(rs, lo, hi) && k > 0
    requires forall r <- rs :: r.1 - r.0 + 1 <= k
    ensures hi - lo + 1 <= |rs| * k
  {
    if rs != [] {
      CoverNeedsRanges(rs[1..], rs[0].1 + 1, hi, k);
      assert |rs| * k == |rs[1..]| * k + k;
    }
  }

  lemma {:induction false} TilesWithin(rs: seq<Span>, lo: int, hi: int)
    requires Tiles(rs, lo, hi)
    ensures forall r <- rs :: lo <= r.0 <= r.1 <= hi
  {
    if rs != [] {
      TilesWithin(rs[1..], rs[0].1 + 1, hi);
      TilesNonEmpty(rs[1..], rs[0].1 + 1, hi);
      forall r | r in rs ensures lo <= r.0 <= r.1 <= hi {
        if r != rs[0] { assert r in rs[1..]; }
      }
    }
  }

  lemma {:induction false} TilesNonEmpty(rs: seq<Span>, lo: int, hi: int)
    requires Tiles(rs, lo, hi)
    ensures lo <= hi + 1
  {
    if rs != [] {
      TilesNonEmpty(rs[1..], rs[0].1 + 1, hi);
    }
  }

  /**
   The split covers 1..N in order, its multi-page chunks respect both limits, and no cover of
   1..N whose multi-page ranges respect both limits has fewer ranges.
   */
  lemma SplitIsMinimalCover(probe: ProbeResult, maxPages: int, maxMB: int, cover: seq<Span>)
    requires probe.pageCount > 0
    ensures var chunks := SplitPlan(probe, maxPages, maxMB).chunks;
      && Tiles(Spans(chunks), 1, probe.pageCount)
      && Numbered(chunks)
      && (forall c <- chunks :: Allowed(probe, c.Span(), maxPages, maxMB))
      && (Tiles(cover, 1, probe.pageCount) && (forall r <- cover :: Allowed(probe, r, maxPages, maxMB))
          ==> |chunks| <= |cover|)
  {
    var n, k := probe.pageCount, SplitWidth(probe, maxPages, maxMB);
    var chunks := SplitPlan(probe, maxPages, maxMB).chunks;
    EqualWidthTiles(n, k);
    TilesWithin(Spans(chunks), 1, n);
    forall c | c in chunks ensures Allowed(probe, c.Span(), maxPages, maxMB) {
      assert c.Span() in Spans(chunks) by {
        var i :| 0 <= i < |chunks| && chunks[i] == c;
        assert Spans(chunks)[i] == c.Span();
      }
      if c.Pages() > 1 { FitsUpToWidth(probe, c.Pages(), maxPages, maxMB); }
    }
    if Tiles(cover, 1, n) && forall r <- cover :: Allowed(probe, r, maxPages, maxMB) {
      TilesWithin(cover, 1, n);
      forall r | r in cover ensures r.1 - r.0 + 1 <= k {
        if r.1 - r.0 > 0 { FitsUpToWidth(probe, r.1 - r.0 + 1, maxPages, maxMB); }
      }
      CoverNeedsRanges(cover, 1, n, k);
      if |cover| < |chunks| { MulMono(|cover|, |chunks| - 1, k); }
    }
  }
}
