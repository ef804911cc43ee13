/** Domain types shared by the planner, the renderer and the cache. */
module Types {

  /** A document format. The amplification and overhead tables know the first four. */
  datatype Format = DOCX | PPTX | XLSX | PDF | OtherFormat(name: string)

  /** An inclusive, 1-based page range. */
  type Span = (int, int)

  /** One planning unit; subdivision makes the index fractional. */
  datatype Chunk = Chunk(index: real, pageStart: int, pageEnd: int, naturalSeam: bool) {
    function Pages(): int {
      pageEnd - pageStart + 1
    }

    function Span(): Span {
      (pageStart, pageEnd)
    }
  }

  datatype ChunkPlan = ChunkPlan(chunks: seq<Chunk>, totalPages: int, estimatedMB: real)

  /** Result of the probe step. A file size is never negative. */
  datatype ProbeResult = ProbeResult(pageCount: int, format: Format, naturalSeams: seq<Span>, sizeBytes: nat)

  function Spans(chunks: seq<Chunk>): seq<Span> {
    seq(|chunks|, i requires 0 <= i < |chunks| => chunks[i].Span())
  }

  /** The ranges rs, in order, cover lo..hi exactly: no gap, no overlap, none empty. */
  ghost predicate Tiles(rs: seq<Span>, lo: int, hi: int) {
    if rs == [] then lo == hi + 1
    else rs[0].0 == lo && lo <= rs[0].1 && Tiles(rs[1..], rs[0].1 + 1, hi)
  }

  /** Chunk i of a plan carries index i. */
  ghost predicate Numbered(chunks: seq<Chunk>) {
    NumberedFrom(chunks, 0)
  }

  ghost predicate NumberedFrom(chunks: seq<Chunk>, first: nat) {
    forall i :: 0 <= i < |chunks| ==> chunks[i].index == (first + i) as real
  }

  /** The index form of Tiles: right ends, no empty range, each range starting where the last one stopped. */
  ghost predicate TilesByIndex(rs: seq<Span>, lo: int, hi: int) {
    && |rs| > 0
    && rs[0].0 == lo
    && rs[|rs| - 1].1 == hi
    && (forall i :: 0 <= i < |rs| ==> rs[i].0 <= rs[i].1)
    && (forall i :: 0 < i < |rs| ==> rs[i].0 == rs[i - 1].1 + 1)
  }

  lemma {:induction false} TilesFromIndex(rs: seq<Span>, lo: int, hi: int)
    requires TilesByIndex(rs, lo, hi)
    ensures Tiles(rs, lo, hi)
  {
    if |rs| == 1 {
      assert rs[1..] == [];
    } else {
      TilesFromIndex(rs[1..], rs[0].1 + 1, hi);
    }
  }

  lemma {:induction false} TilesToIndex(rs: seq<Span>, lo: int, hi: int)
    requires Tiles(rs, lo, hi) && rs != []
    ensures TilesByIndex(rs, lo, hi)
  {
    if |rs| == 1 {
      assert rs[1..] == [];
    } else {
      var tail := rs[1..];
      TilesToIndex(tail, rs[0].1 + 1, hi);
      forall i | 0 < i < |rs| ensures rs[i].0 == rs[i - 1].1 + 1 {
        assert rs[i] == tail[i - 1];
        if i > 1 { assert rs[i - 1] == tail[i - 2]; }
      }
      forall i | 0 <= i < |rs| ensures rs[i].0 <= rs[i].1 {
        if i > 0 { assert rs[i] == tail[i - 1]; }
      }
    }
  }
}
