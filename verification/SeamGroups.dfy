/** The grouping of natural seams (slides, sheets, sections) into chunks, and its balance test. */
module SeamGroups {
  import opened Types
  import opened PageSplit

  const BALANCE_FACTOR := 1.5

  /** Start -1 stands for "nothing pending". */
  datatype Pending = Pending(start: int, end: int, pages: int)

  const NOTHING := Pending(-1, 0, 0)

  function Take(seam: Span): Pending {
    Pending(seam.0, seam.1, seam.1 - seam.0 + 1)
  }

  /** The pending group can absorb the seam without passing either limit. */
  predicate Joins(probe: ProbeResult, p: Pending, seam: Span, maxPages: int, maxMB: int) {
    Fits(probe, p.pages + Take(seam).pages, maxPages, maxMB)
  }

  function SeamChunk(p: Pending, index: nat): Chunk {
    Chunk(index as real, p.start, p.end, true)
  }

  /** The chunks still to come when p is pending, the next index is given and these seams remain. */
  function GroupFrom(probe: ProbeResult, p: Pending, seams: seq<Span>, index: nat, maxPages: int, maxMB: int): seq<Chunk>
    decreases |seams|
  {
    if seams == [] then (if p.start != -1 then [SeamChunk(p, index)] else [])
    else if p.start == -1 then
      GroupFrom(probe, Take(seams[0]), seams[1..], index, maxPages, maxMB)
    else if Joins(probe, p, seams[0], maxPages, maxMB) then
      GroupFrom(probe, Pending(p.start, seams[0].1, p.pages + Take(seams[0]).pages), seams[1..], index, maxPages, maxMB)
    else
      [SeamChunk(p, index)] + GroupFrom(probe, Take(seams[0]), seams[1..], index + 1, maxPages, maxMB)
  }

  function GroupPlan(probe: ProbeResult, maxPages: int, maxMB: int): ChunkPlan {
    var chunks := GroupFrom(probe, NOTHING, probe.naturalSeams, 0, maxPages, maxMB);
    ChunkPlan(chunks, probe.pageCount, SumMB(probe, chunks))
  }

  method GroupSeams(probe: ProbeResult, maxPages: int, maxMB: int) returns (plan: ChunkPlan)
    ensures plan == GroupPlan(probe, maxPages, maxMB)
  {
    hide EstimateChunkMB, SumMB;
    var chunks: seq<Chunk> := [];
    var seams := probe.naturalSeams;
    var pending := NOTHING;
    for i := 0 to |seams|
      invariant chunks + GroupFrom(probe, pending, seams[i..], |chunks|, maxPages, maxMB)
             == GroupFrom(probe, NOTHING, seams, 0, maxPages, maxMB)
    {
      var seam := seams[i];
      assert seams[i..][0] == seam && seams[i..][1..] == seams[i + 1..];
      if pending.start == -1 {
        pending := Take(seam);
      } else {
        var combined := pending.pages + Take(seam).pages;
        if combined <= maxPages && Estimate(probe, combined) <= maxMB as real {
          pending := Pending(pending.start, seam.1, combined);
        } else {
          chunks := chunks + [SeamChunk(pending, |chunks|)];
          pending := Take(seam);
        }
      }
    }
    assert seams[|seams|..] == [];
    ghost var left := GroupFrom(probe, pending, [], |chunks|, maxPages, maxMB);
    assert chunks + left == GroupFrom(probe, NOTHING, seams, 0, maxPages, maxMB);
    if pending.start != -1 {
      chunks := chunks + [SeamChunk(pending, |chunks|)];
    }
    assert chunks == GroupFrom(probe, NOTHING, seams, 0, maxPages, maxMB);
    var total := TotalMB(probe, chunks);
    plan := ChunkPlan(chunks, probe.pageCount, total);
  }

  // ---------------------------------------------------------------- balance test

  /** Pro-rates the plan's summed estimate over one of its chunks. */
  function ChunkMB(chunk: Chunk, plan: ChunkPlan): real {
    if plan.totalPages == 0 then 0.0
    else plan.estimatedMB * (chunk.Pages() as real / plan.totalPages as real)
  }

  predicate IsBalanced(plan: ChunkPlan, maxPages: int, maxMB: int) {
    && (forall c <- plan.chunks :: c.Pages() as real <= maxPages as real * BALANCE_FACTOR)
    && (forall c <- plan.chunks :: ChunkMB(c, plan) <= maxMB as real * BALANCE_FACTOR)
  }

  /** Pages counted over a list of ranges that tile lo..hi. */
  lemma {:induction false} SumOverTiling(probe: ProbeResult, chunks: seq<Chunk>, lo: int)
    requires probe.pageCount > 0 && |chunks| > 0
    requires TilesByIndex(Spans(chunks), lo, chunks[|chunks| - 1].pageEnd)
    ensures SumMB(probe, chunks) == Estimate(probe, chunks[|chunks| - 1].pageEnd - lo + 1)
  {
    var front, last := chunks[..|chunks| - 1], chunks[|chunks| - 1];
    var rs := Spans(chunks);
    assert rs[|chunks| - 1] == last.Span();
    if front == [] {
      assert SumMB(probe, front) == 0.0;
    } else {
      var prev := front[|front| - 1];
      assert Spans(front) == rs[..|front|];
      assert rs[|front|].0 == rs[|front| - 1].1 + 1;
      SumOverTiling(probe, front, lo);
      SpanEndsGrow(rs, |front| - 1);
      assert rs[|front| - 1].1 == prev.pageEnd;
      EstimateAdds(probe, prev.pageEnd - lo + 1, last.Pages());
    }
  }

  lemma {:induction false} SpanEndsGrow(rs: seq<Span>, i: nat)
    requires i < |rs|
    requires forall j :: 0 <= j < |rs| ==> rs[j].0 <= rs[j].1
    requires forall j :: 0 < j < |rs| ==> rs[j].0 == rs[j - 1].1 + 1
    ensures rs[0].0 <= rs[i].1
  {
    if i > 0 { SpanEndsGrow(rs, i - 1); }
  }

  lemma EstimateAdds(probe: ProbeResult, a: int, b: int)
    requires probe.pageCount > 0 && a > 0 && b > 0
    ensures Estimate(probe, a) + Estimate(probe, b) == Estimate(probe, a + b)
  {
    EstimateIsQuotient(probe, a);
    EstimateIsQuotient(probe, b);
    EstimateIsQuotient(probe, a + b);
    var bytes, d := RenderedBytes(probe), probe.pageCount as real * BYTES_PER_MB;
    assert (a + b) as real * bytes == a as real * bytes + b as real * bytes;
    QuotientsAdd(a as real * bytes, b as real * bytes, d);
  }

  lemma QuotientsAdd(x: real, y: real, d: real)
    requires d > 0.0
    ensures x / d + y / d == (x + y) / d
  {
  }

  /** On a plan that covers the document, pro-rating the summed estimate is the direct estimate. */
  lemma ChunkMBIsDirectEstimate(probe: ProbeResult, plan: ChunkPlan, chunk: Chunk)
    requires probe.pageCount > 0 && plan.totalPages == probe.pageCount
    requires plan.estimatedMB == SumMB(probe, plan.chunks)
    requires Tiles(Spans(plan.chunks), 1, probe.pageCount)
    requires chunk.Pages() >= 1
    ensures ChunkMB(chunk, plan) == Estimate(probe, chunk.Pages())
  {
    TilesToIndex(Spans(plan.chunks), 1, probe.pageCount);
    SumOverTiling(probe, plan.chunks, 1);
    var n, bytes, p := probe.pageCount as real, RenderedBytes(probe), chunk.Pages() as real;
    EstimateIsQuotient(probe, probe.pageCount);
    EstimateIsQuotient(probe, chunk.Pages());
    ProRata(n, bytes, p);
  }

  lemma ProRata(n: real, bytes: real, p: real)
    requires n > 0.0
    ensures n * bytes / (n * BYTES_PER_MB) * (p / n) == p * bytes / (n * BYTES_PER_MB)
  {
    var d := n * BYTES_PER_MB;
    var whole := n * bytes / d;
    assert whole * d == n * bytes;
    var share := whole * (p / n);
    calc {
      share * d;
      (whole * d) * (p / n);
      n * bytes * (p / n);
      p * bytes;
    }
    DivideBack(share, d, p * bytes);
  }

  // ---------------------------------------------------------------- what grouping keeps

  /** p holds the pages start..end of a run of adjacent seams. */
  ghost predicate Holds(p: Pending) {
    1 <= p.start <= p.end && p.pages == p.end - p.start + 1
  }

  /** Grouping seams that tile what follows p tiles it too. */
  lemma {:induction false} GroupFromTiles(probe: ProbeResult, p: Pending, seams: seq<Span>, index: nat, maxPages: int, maxMB: int, hi: int)
    requires Holds(p) && Tiles(seams, p.end + 1, hi)
    ensures Tiles(Spans(GroupFrom(probe, p, seams, index, maxPages, maxMB)), p.start, hi)
    decreases |seams|
  {
    var chunks := GroupFrom(probe, p, seams, index, maxPages, maxMB);
    if seams == [] {
      assert Spans(chunks) == [(p.start, p.end)];
      assert Spans(chunks)[1..] == [];
    } else if Joins(probe, p, seams[0], maxPages, maxMB) {
      GroupFromTiles(probe, Pending(p.start, seams[0].1, p.pages + Take(seams[0]).pages), seams[1..], index, maxPages, maxMB, hi);
    } else {
      GroupFromTiles(probe, Take(seams[0]), seams[1..], index + 1, maxPages, maxMB, hi);
      var rest := GroupFrom(probe, Take(seams[0]), seams[1..], index + 1, maxPages, maxMB);
      assert Spans(chunks)[1..] == Spans(rest);
    }
  }

  /** A seam starts at this page. */
  ghost predicate SeamStart(seams: seq<Span>, page: int) {
    exists s <- seams :: s.0 == page
  }

  ghost predicate SeamEnd(seams: seq<Span>, page: int) {
    exists s <- seams :: s.1 == page
  }

  ghost predicate AtSeams(seams: seq<Span>, c: Chunk) {
    SeamStart(seams, c.pageStart) && SeamEnd(seams, c.pageEnd)
  }

  /** The chunk is one whole seam, or joins several and respects both limits. */
  ghost predicate SeamOrFits(probe: ProbeResult, c: Chunk, maxPages: int, maxMB: int) {
    c.Span() in probe.naturalSeams || (c.Pages() <= maxPages && Estimate(probe, c.Pages()) <= maxMB as real)
  }

  lemma {:induction false} GroupFromAtSeams(probe: ProbeResult, p: Pending, seams: seq<Span>, index: nat, maxPages: int, maxMB: int, hi: int)
    requires Holds(p) && Tiles(seams, p.end + 1, hi)
    requires forall s <- seams :: s in probe.naturalSeams
    requires AtSeams(probe.naturalSeams, SeamChunk(p, index))
    requires SeamOrFits(probe, SeamChunk(p, index), maxPages, maxMB)
    ensures forall c <- GroupFrom(probe, p, seams, index, maxPages, maxMB) ::
      AtSeams(probe.naturalSeams, c) && SeamOrFits(probe, c, maxPages, maxMB) && c.naturalSeam
    ensures NumberedFrom(GroupFrom(probe, p, seams, index, maxPages, maxMB), index)
    decreases |seams|
  {
    if seams != [] {
      var seam := seams[0];
      assert seam in probe.naturalSeams;
      if Joins(probe, p, seam, maxPages, maxMB) {
        var q := Pending(p.start, seam.1, p.pages + Take(seam).pages);
        assert SeamChunk(q, index).Pages() == q.pages;
        GroupFromAtSeams(probe, q, seams[1..], index, maxPages, maxMB, hi);
      } else {
        assert SeamChunk(Take(seam), index + 1).Span() == seam;
        GroupFromAtSeams(probe, Take(seam), seams[1..], index + 1, maxPages, maxMB, hi);
      }
    }
  }

  /** Grouped seams that tile the document: an ordered, numbered cover cut only at seams. */
  lemma GroupPlanKeepsSeams(probe: ProbeResult, maxPages: int, maxMB: int)
    requires probe.naturalSeams != [] && Tiles(probe.naturalSeams, 1, probe.pageCount)
    ensures var chunks := GroupPlan(probe, maxPages, maxMB).chunks;
      && Tiles(Spans(chunks), 1, probe.pageCount)
      && Numbered(chunks)
      && (forall c <- chunks :: AtSeams(probe.naturalSeams, c) && SeamOrFits(probe, c, maxPages, maxMB) && c.naturalSeam)
  {
    var seams := probe.naturalSeams;
    var p := Take(seams[0]);
    assert seams[0] in seams;
    assert SeamChunk(p, 0).Span() == seams[0];
    GroupFromTiles(probe, p, seams[1..], 0, maxPages, maxMB, probe.pageCount);
    GroupFromAtSeams(probe, p, seams[1..], 0, maxPages, maxMB, probe.pageCount);
  }

  /** A seam starts right after this chunk, and the two together pass a limit. */
  ghost predicate Full(probe: ProbeResult, c: Chunk, maxPages: int, maxMB: int) {
    exists seam <- probe.naturalSeams :: seam.0 == c.pageEnd + 1
      && var together := c.Pages() + seam.1 - seam.0 + 1;
         together > maxPages || Estimate(probe, together) > maxMB as real
  }

  /** All chunks but the last are full. */
  ghost predicate AllFull(probe: ProbeResult, chunks: seq<Chunk>, maxPages: int, maxMB: int) {
    forall i :: 0 <= i < |chunks| - 1 ==> Full(probe, chunks[i], maxPages, maxMB)
  }

  lemma AllFullThen(probe: ProbeResult, c: Chunk, rest: seq<Chunk>, maxPages: int, maxMB: int)
    requires Full(probe, c, maxPages, maxMB) && AllFull(probe, rest, maxPages, maxMB)
    ensures AllFull(probe, [c] + rest, maxPages, maxMB)
  {
    hide Full;
  }

  lemma {:induction false} GroupFromFull(probe: ProbeResult, p: Pending, seams: seq<Span>, index: nat, maxPages: int, maxMB: int, hi: int)
    requires Holds(p) && Tiles(seams, p.end + 1, hi)
    requires forall s <- seams :: s in probe.naturalSeams
    ensures var chunks := GroupFrom(probe, p, seams, index, maxPages, maxMB);
      AllFull(probe, chunks, maxPages, maxMB)
    decreases |seams|
  {
    if seams != [] {
      var seam := seams[0];
      assert seam in probe.naturalSeams;
      if Joins(probe, p, seam, maxPages, maxMB) {
        var q := Pending(p.start, seam.1, p.pages + Take(seam).pages);
        GroupFromFull(probe, q, seams[1..], index, maxPages, maxMB, hi);
        assert GroupFrom(probe, p, seams, index, maxPages, maxMB) == GroupFrom(probe, q, seams[1..], index, maxPages, maxMB);
      } else {
        GroupFromFull(probe, Take(seam), seams[1..], index + 1, maxPages, maxMB, hi);
        assert Full(probe, SeamChunk(p, index), maxPages, maxMB);
        var rest := GroupFrom(probe, Take(seam), seams[1..], index + 1, maxPages, maxMB);
        assert GroupFrom(probe, p, seams, index, maxPages, maxMB) == [SeamChunk(p, index)] + rest;
        AllFullThen(probe, SeamChunk(p, index), rest, maxPages, maxMB);
      }
    }
  }

  /** No group of tiling seams could have taken in the seam that follows it. */
  lemma GroupsAreFull(probe: ProbeResult, maxPages: int, maxMB: int, i: nat)
    requires Tiles(probe.naturalSeams, 1, probe.pageCount)
    requires i + 1 < |GroupPlan(probe, maxPages, maxMB).chunks|
    ensures Full(probe, GroupPlan(probe, maxPages, maxMB).chunks[i], maxPages, maxMB)
  {
    var seams := probe.naturalSeams;
    if seams != [] {
      GroupFromFull(probe, Take(seams[0]), seams[1..], 0, maxPages, maxMB, probe.pageCount);
      assert GroupPlan(probe, maxPages, maxMB).chunks == GroupFrom(probe, Take(seams[0]), seams[1..], 0, maxPages, maxMB);
    }
  }

  // ---------------------------------------------------------------- seams with gaps

  /** As the probe promises them: no seam is empty, and each starts after the one before has ended. */
  ghost predicate Ascending(seams: seq<Span>) {
    && (forall i :: 0 <= i < |seams| ==> seams[i].0 <= seams[i].1)
    && (forall i :: 0 < i < |seams| ==> seams[i - 1].1 < seams[i].0)
  }

  /** Every seam that follows p at a distance joins the group pending there: no group ends at a gap. */
  predicate GapsJoined(probe: ProbeResult, p: Pending, seams: seq<Span>, maxPages: int, maxMB: int)
    decreases |seams|
  {
    seams == [] ||
    if Joins(probe, p, seams[0], maxPages, maxMB) then
      GapsJoined(probe, Pending(p.start, seams[0].1, p.pages + Take(seams[0]).pages), seams[1..], maxPages, maxMB)
    else
      seams[0].0 == p.end + 1 && GapsJoined(probe, Take(seams[0]), seams[1..], maxPages, maxMB)
  }

  function LastEnd(p: Pending, seams: seq<Span>): int {
    if seams == [] then p.end else seams[|seams| - 1].1
  }

  /** Groups of ascending seams tile what they span exactly when no group ends at a gap. */
  lemma {:induction false} GroupsTileIffGapsJoined(probe: ProbeResult, p: Pending, seams: seq<Span>, index: nat, maxPages: int, maxMB: int, hi: int)
    requires 1 <= p.start <= p.end && Ascending(seams) && (seams != [] ==> p.end < seams[0].0)
    ensures Tiles(Spans(GroupFrom(probe, p, seams, index, maxPages, maxMB)), p.start, hi) <==>
      LastEnd(p, seams) == hi && GapsJoined(probe, p, seams, maxPages, maxMB)
    decreases |seams|
  {
    hide Fits;
    var chunks := GroupFrom(probe, p, seams, index, maxPages, maxMB);
    if seams == [] {
      assert Spans(chunks) == [(p.start, p.end)];
      assert Spans(chunks)[1..] == [];
    } else if Joins(probe, p, seams[0], maxPages, maxMB) {
      var q := Pending(p.start, seams[0].1, p.pages + Take(seams[0]).pages);
      GroupsTileIffGapsJoined(probe, q, seams[1..], index, maxPages, maxMB, hi);
    } else {
      GroupsTileIffGapsJoined(probe, Take(seams[0]), seams[1..], index + 1, maxPages, maxMB, hi);
      var rest := GroupFrom(probe, Take(seams[0]), seams[1..], index + 1, maxPages, maxMB);
      assert chunks == [SeamChunk(p, index)] + rest;
      assert Spans(chunks)[1..] == Spans(rest);
      StartsAtPending(probe, Take(seams[0]), seams[1..], index + 1, maxPages, maxMB);
      assert Spans(rest)[0].0 == seams[0].0;
    }
  }

  lemma {:induction false} StartsAtPending(probe: ProbeResult, p: Pending, seams: seq<Span>, index: nat, maxPages: int, maxMB: int)
    requires p.start >= 1
    ensures var chunks := GroupFrom(probe, p, seams, index, maxPages, maxMB); chunks != [] && chunks[0].pageStart == p.start
    decreases |seams|
  {
    hide Fits;
    if seams != [] && Joins(probe, p, seams[0], maxPages, maxMB) {
      StartsAtPending(probe, Pending(p.start, seams[0].1, p.pages + Take(seams[0]).pages), seams[1..], index, maxPages, maxMB);
    }
  }

  /** No group ends at a gap, from the first seam on. */
  predicate NoGapBetweenGroups(probe: ProbeResult, maxPages: int, maxMB: int)
    requires probe.naturalSeams != []
  {
    GapsJoined(probe, Take(probe.naturalSeams[0]), probe.naturalSeams[1..], maxPages, maxMB)
  }

  lemma GroupPlanTilesIff(probe: ProbeResult, maxPages: int, maxMB: int)
    requires probe.naturalSeams != [] && Ascending(probe.naturalSeams) && probe.naturalSeams[0].0 >= 1
    ensures Tiles(Spans(GroupPlan(probe, maxPages, maxMB).chunks), 1, probe.pageCount) <==>
      && probe.naturalSeams[0].0 == 1
      && probe.naturalSeams[|probe.naturalSeams| - 1].1 == probe.pageCount
      && NoGapBetweenGroups(probe, maxPages, maxMB)
  {
    hide Fits, Tiles, GroupFrom, SumMB;
    var seams := probe.naturalSeams;
    GroupsTileIffGapsJoined(probe, Take(seams[0]), seams[1..], 0, maxPages, maxMB, probe.pageCount);
    FirstSeamTaken(probe, maxPages, maxMB);
    StartsAtPending(probe, Take(seams[0]), seams[1..], 0, maxPages, maxMB);
    if seams[0].0 != 1 {
      StartsElsewhere(GroupPlan(probe, maxPages, maxMB).chunks, 1, probe.pageCount);
    }
  }

  lemma FirstSeamTaken(probe: ProbeResult, maxPages: int, maxMB: int)
    requires probe.naturalSeams != []
    ensures GroupPlan(probe, maxPages, maxMB).chunks
         == GroupFrom(probe, Take(probe.naturalSeams[0]), probe.naturalSeams[1..], 0, maxPages, maxMB)
  {
  }

  lemma StartsElsewhere(chunks: seq<Chunk>, lo: int, hi: int)
    requires chunks != [] && chunks[0].pageStart != lo
    ensures !Tiles(Spans(chunks), lo, hi)
  {
    assert Spans(chunks)[0] == chunks[0].Span();
  }
}
