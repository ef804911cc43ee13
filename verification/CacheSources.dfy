/**
 When the files that are copied into the cache can be trusted with one process a chunk: under the
 conditions of CachedRenders. In pool mode they always can, see PoolWithCache.
 */
module CacheSources {
  import opened Types
  import opened Planner
  import opened PdfPages
  import Cache
  import OneShotFiles
  import Paths = RenderPaths
  import Runs = RenderRuns
  import With = CachedRenders

  /** The scratch directory holds, under their spelling, the files of the job. */
  ghost predicate SameScratch(doc: seq<Page>, spell: Paths.Path -> string, files: Paths.Files, scratch: map<string, seq<Page>>) {
    forall path <- files.Keys :: spell(path) in scratch && scratch[spell(path)] == OneShotFiles.PagesOfDoc(doc, files[path])
  }

  /** What is being copied are the finished leaves of the job. */
  ghost predicate CopiesLeaves(
    spell: Paths.Path -> string, digest: string, format: string, c: With.Cached, store: Cache.Store)
  {
    forall file <- store.writers.Keys :: exists p :: CopiesLeaf(spell, digest, format, c, store.writers[file], p)
  }

  ghost predicate CopiesLeaf(
    spell: Paths.Path -> string, digest: string, format: string, c: With.Cached, writer: Cache.Writer, p: With.Place)
  {
    && p in c.puts && p.k < |c.job.nodes|
    && var leaf := Runs.NodeAt(c.job.nodes[p.k], p.at);
       leaf.Finished? && writer == Cache.Writer(Cache.PartOf(leaf.chunk, digest, format), spell(leaf.path))
  }

  /**
   While the names of the scratch files stay apart, or with a single worker while no left half is
   halved again, every source that is being copied holds the pages it is stored for. Otherwise, as
   CachedRenders shows, some copy stores other pages.
   */
  lemma OneShotSourcesAreTrusted(
    doc: seq<Page>, spell: Paths.Path -> string, digest: string, format: string, render: Cache.Render,
    oom: Paths.Oom, parallel: int, plan: seq<Chunk>, pageCount: int, steps: seq<With.Action>, c: With.Cached, store: Cache.Store)
    requires Cache.RendersSlices(doc, digest, format, render)
    requires 0 < pageCount <= |doc| && Tiles(Spans(plan), 1, pageCount) && Numbered(plan)
    requires Paths.NamesStayApart(oom, plan) || (parallel == 1 && forall k :: 0 <= k < |plan| ==> Paths.RightOnly(oom, plan[k]))
    requires With.Run(oom, parallel, With.Start(plan), steps, c)
    requires SameScratch(doc, spell, c.job.files, store.scratch) && CopiesLeaves(spell, digest, format, c, store)
    ensures Cache.Trusted(render, store)
  {
    hide With.Run, Slice, Tiles, Paths.RightOnly, OneShotFiles.PagesOfDoc, Paths.PagesOf;
    With.SourcesAlwaysHold(oom, parallel, plan, steps, c);
    SpansOfCover(plan, pageCount);
    forall file | file in store.writers
      ensures store.writers[file].source in store.scratch
      ensures Cache.SourceOf(store, file) == render(store.writers[file].unit)
    {
      var p :| CopiesLeaf(spell, digest, format, c, store.writers[file], p);
      var leaf := Runs.NodeAt(c.job.nodes[p.k], p.at);
      assert With.PutOk(c, p) && With.Copying(c, p) && plan[p.k] in plan;
      With.PlaceWithin(oom, c.job.nodes[p.k], plan[p.k], p.at);
      OneShotFiles.PagesAreSlice(doc, leaf.chunk);
    }
  }
}
