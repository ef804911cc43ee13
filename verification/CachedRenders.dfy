/**
 The renders of RenderPaths with the chunk cache on, all lookups missing. A worker's file is copied
 into the cache after the render and before its chunk counts as done; meanwhile other renders go
 on and may write the same file. An entry appears at once when its copy is complete: see Cache.
 */
module CachedRenders {
  import opened Types
  import opened Planner
  import opened RenderPaths
  import opened RenderRuns
  import opened NameClashes
  import opened SinglePermit

  /** A node of chunk k's tree. */
  datatype Place = Place(k: nat, at: seq<Turn>)

  /** puts are the copies under way, with what has been copied; entries are the cache's, by page range. */
  datatype Cached = Cached(job: Job, puts: map<Place, Content>, entries: map<Span, Content>)

  datatype Action = Work(step: RenderPaths.Action) | Copy(place: Place, n: nat) | Store(place: Place) | Drop(place: Place)

  /** Chunks rendered whole whose copy is under way: they still hold the semaphore. */
  function RootPuts(puts: map<Place, Content>): nat {
    |set p | p in puts && p.at == []|
  }

  ghost predicate Copying(c: Cached, p: Place) {
    && p in c.puts && p.k < |c.job.nodes|
    && NodeAt(c.job.nodes[p.k], p.at).Finished?
    && NodeAt(c.job.nodes[p.k], p.at).path in c.job.files
  }

  function SourceOf(c: Cached, p: Place): Content
    requires p.k < |c.job.nodes| && NodeAt(c.job.nodes[p.k], p.at).Finished?
    requires NodeAt(c.job.nodes[p.k], p.at).path in c.job.files
  {
    c.job.files[NodeAt(c.job.nodes[p.k], p.at).path]
  }

  /** A merge, or handing up a failure, waits for the copies below it. */
  ghost predicate Enabled(parallel: int, c: Cached, a: Action) {
    match a
    case Work(b) =>
      && RenderPaths.Enabled(parallel, c.job, b)
      && (b.Begin? ==> Active(c.job.nodes) + RootPuts(c.puts) < parallel)
      && (b.Step? ==> forall p <- c.puts.Keys :: p.k == b.k ==> !(b.at <= p.at))
    case Copy(p, n) => Copying(c, p) && |c.puts[p]| + n <= |SourceOf(c, p)|
    case Store(p) => Copying(c, p) && |c.puts[p]| >= |SourceOf(c, p)|
    case Drop(p) => p in c.puts
  }

  ghost predicate Rendered(before: Job, after: Job, b: RenderPaths.Action) {
    && b.Step? && b.k < |before.nodes| && b.k < |after.nodes|
    && NodeAt(before.nodes[b.k], b.at).Todo? && NodeAt(after.nodes[b.k], b.at).Finished?
  }

  /** A copy takes what is in the source file now. */
  ghost function Apply(oom: Oom, parallel: int, c: Cached, a: Action): Cached
    requires Enabled(parallel, c, a)
  {
    match a
    case Work(b) =>
      var job := RenderPaths.Apply(oom, parallel, c.job, b);
      c.(job := job, puts := if Rendered(c.job, job, b) then c.puts[Place(b.k, b.at) := []] else c.puts)
    case Copy(p, n) =>
      var done := |c.puts[p]|;
      c.(puts := c.puts[p := c.puts[p] + SourceOf(c, p)[done..done + n]])
    case Store(p) =>
      c.(puts := c.puts - {p}, entries := c.entries[NodeAt(c.job.nodes[p.k], p.at).chunk.Span() := c.puts[p]])
    case Drop(p) => c.(puts := c.puts - {p})
  }

  ghost predicate Run(oom: Oom, parallel: int, a: Cached, steps: seq<Action>, b: Cached)
    decreases |steps|
  {
    if steps == [] then a == b
    else Enabled(parallel, a, steps[0]) && Run(oom, parallel, Apply(oom, parallel, a, steps[0]), steps[1..], b)
  }

  function Start(plan: seq<Chunk>): Cached {
    Cached(RenderPaths.Start(plan), map[], map[])
  }

  function PagesIn(span: Span): Content {
    PagesOf(Chunk(0.0, span.0, span.1, false))
  }

  /** Every entry of the cache holds the pages of its range. */
  ghost predicate EntriesRight(c: Cached) {
    forall span <- c.entries.Keys :: c.entries[span] == PagesIn(span)
  }

  ghost predicate StoredAlwaysRight(oom: Oom, parallel: int, plan: seq<Chunk>) {
    forall steps, c :: Run(oom, parallel, Start(plan), steps, c) ==> EntriesRight(c)
  }

  // ---------------------------------------------------------------- copies of sound trees

  /** The copy at p is of a finished leaf, and so far of that leaf's pages. */
  ghost predicate PutOk(c: Cached, p: Place) {
    && p in c.puts && p.k < |c.job.nodes| && IsPlace(c.job.nodes[p.k], p.at)
    && var leaf := NodeAt(c.job.nodes[p.k], p.at);
       leaf.Finished? && leaf.path == ChunkFile(leaf.chunk.index) && c.puts[p] <= PagesOf(leaf.chunk)
  }

  ghost predicate PutsOk(c: Cached) {
    forall p <- c.puts.Keys :: PutOk(c, p)
  }

  /** The source of every copy under way holds exactly the leaf's pages. */
  ghost predicate SourcesHold(c: Cached) {
    forall p <- c.puts.Keys :: Copying(c, p) && SourceOf(c, p) == PagesOf(NodeAt(c.job.nodes[p.k], p.at).chunk)
  }

  lemma {:induction false} SoundAtPlace(files: Files, node: Node, at: seq<Turn>)
    requires Sound(files, node)
    ensures Sound(files, NodeAt(node, at))
    decreases |at|
  {
    if at != [] && node.Split? {
      SoundAtPlace(files, Half(node, at[0]), at[1..]);
    }
  }

  lemma SoundTreesHold(c: Cached)
    requires PutsOk(c) && forall p <- c.puts.Keys :: p.k < |c.job.nodes| ==> Sound(c.job.files, c.job.nodes[p.k])
    ensures SourcesHold(c)
  {
    forall p | p in c.puts ensures Copying(c, p) && SourceOf(c, p) == PagesOf(NodeAt(c.job.nodes[p.k], p.at).chunk) {
      assert PutOk(c, p);
      SoundAtPlace(c.job.files, c.job.nodes[p.k], p.at);
    }
  }

  lemma SpanPages(chunk: Chunk)
    ensures PagesIn(chunk.Span()) == PagesOf(chunk)
  {
  }

  /** While the sources hold, copying keeps the copies right and stores right entries. */
  lemma CopyStep(oom: Oom, parallel: int, c: Cached, a: Action)
    requires PutsOk(c) && EntriesRight(c) && SourcesHold(c) && Enabled(parallel, c, a) && !a.Work?
    ensures var d := Apply(oom, parallel, c, a); PutsOk(d) && EntriesRight(d) && d.job == c.job && d.puts.Keys <= c.puts.Keys
  {
    hide PagesOf, PagesIn;
    var d := Apply(oom, parallel, c, a);
    assert PutOk(c, a.place);
    var leaf := NodeAt(c.job.nodes[a.place.k], a.place.at);
    SpanPages(leaf.chunk);
    forall p | p in d.puts ensures PutOk(d, p) {
      assert PutOk(c, p);
      if a.Copy? && p == a.place {
        PrefixGrows(c.puts[p], PagesOf(leaf.chunk), a.n);
      }
    }
    if a.Store? {
      assert c.puts[a.place] == PagesOf(leaf.chunk);
    }
  }

  lemma PrefixGrows(copied: Content, whole: Content, n: nat)
    requires copied <= whole && |copied| + n <= |whole|
    ensures copied + whole[|copied|..|copied| + n] <= whole
  {
  }

  /** A finished part of the tree stays as it is until its parent is merged or fails. */
  lemma {:induction false} PlaceFrame(oom: Oom, files: Files, node: Node, at: seq<Turn>, place: seq<Turn>)
    requires NodeEnabled(files, node, at) && IsPlace(node, place) && NodeAt(node, place).Finished? && !(at <= place)
    ensures var (_, node') := NodeApply(oom, files, node, at);
      IsPlace(node', place) && NodeAt(node', place) == NodeAt(node, place)
    decreases |at|
  {
    if at != [] && place != [] && at[0] == place[0] {
      PlaceFrame(oom, files, Half(node, at[0]), at[1..], place[1..]);
    }
  }

  lemma {:induction false} NewLeaf(oom: Oom, files: Files, node: Node, at: seq<Turn>)
    requires NodeEnabled(files, node, at) && NodeAt(node, at).Todo?
    requires NodeAt(NodeApply(oom, files, node, at).1, at).Finished?
    ensures var (_, node') := NodeApply(oom, files, node, at);
      IsPlace(node', at) && NodeAt(node', at).path == ChunkFile(NodeAt(node', at).chunk.index)
    decreases |at|
  {
    if at != [] {
      NewLeaf(oom, files, Half(node, at[0]), at[1..]);
    }
  }

  lemma PutsOkWork(oom: Oom, parallel: int, c: Cached, b: RenderPaths.Action)
    requires PutsOk(c) && Enabled(parallel, c, Work(b))
    ensures PutsOk(Apply(oom, parallel, c, Work(b)))
  {
    hide PagesOf, NodeApply, NodeEnabled;
    var d := Apply(oom, parallel, c, Work(b));
    if Rendered(c.job, d.job, b) {
      NewLeaf(oom, c.job.files, c.job.nodes[b.k], b.at);
    }
    forall p | p in d.puts ensures PutOk(d, p) {
      if p in c.puts {
        assert PutOk(c, p);
        if b.Step? && p.k == b.k {
          PlaceFrame(oom, c.job.files, c.job.nodes[b.k], b.at, p.at);
        }
      }
    }
  }

  // ---------------------------------------------------------------- several permits

  ghost predicate ApartInv(oom: Oom, plan: seq<Chunk>, c: Cached) {
    JobInv(oom, plan, c.job) && PutsOk(c) && EntriesRight(c)
  }

  lemma ApartInvHolds(oom: Oom, plan: seq<Chunk>, c: Cached)
    requires ApartInv(oom, plan, c)
    ensures SourcesHold(c)
  {
    SoundTreesHold(c);
  }

  lemma ApartInvStep(oom: Oom, parallel: int, plan: seq<Chunk>, c: Cached, a: Action)
    requires NamesStayApart(oom, plan) && Numbered(plan)
    requires ApartInv(oom, plan, c) && Enabled(parallel, c, a)
    ensures ApartInv(oom, plan, Apply(oom, parallel, c, a))
  {
    hide JobInv, PutsOk, EntriesRight, NamesStayApart, RenderPaths.Apply;
    if a.Work? {
      JobInvStep(oom, parallel, plan, c.job, a.step);
      PutsOkWork(oom, parallel, c, a.step);
      SameEntries(c, Apply(oom, parallel, c, a));
    } else {
      ApartInvHolds(oom, plan, c);
      CopyStep(oom, parallel, c, a);
    }
  }

  lemma SameEntries(c: Cached, d: Cached)
    requires EntriesRight(c) && d.entries == c.entries
    ensures EntriesRight(d)
  {
  }

  lemma {:induction false} ApartInvOnRuns(oom: Oom, parallel: int, plan: seq<Chunk>, a: Cached, steps: seq<Action>, b: Cached)
    requires NamesStayApart(oom, plan) && Numbered(plan)
    requires ApartInv(oom, plan, a) && Run(oom, parallel, a, steps, b)
    ensures ApartInv(oom, plan, b)
    decreases |steps|
  {
    hide ApartInv, NamesStayApart;
    if steps != [] {
      ApartInvStep(oom, parallel, plan, a, steps[0]);
      ApartInvOnRuns(oom, parallel, plan, Apply(oom, parallel, a, steps[0]), steps[1..], b);
    }
  }

  // ---------------------------------------------------------------- one permit

  ghost predicate Busy(c: Cached, k: nat)
    requires k < |c.job.nodes|
  {
    IsActive(c.job.nodes[k]) || exists p <- c.puts.Keys :: p.k == k
  }

  /** At most one chunk is busy, and its tree is sound. */
  ghost predicate OneBusyInv(oom: Oom, plan: seq<Chunk>, c: Cached) {
    && |c.job.nodes| == |plan|
    && (forall k :: 0 <= k < |plan| ==> StageOf(oom, c.job.nodes[k], plan[k]))
    && (forall k :: 0 <= k < |plan| && Busy(c, k) ==> Sound(c.job.files, c.job.nodes[k]))
    && (forall i, k :: 0 <= i < |plan| && 0 <= k < |plan| && i != k && Busy(c, i) ==> !Busy(c, k))
    && PutsOk(c) && EntriesRight(c)
  }

  lemma OneBusyHolds(oom: Oom, plan: seq<Chunk>, c: Cached)
    requires OneBusyInv(oom, plan, c)
    ensures SourcesHold(c)
  {
    hide Sound, StageOf;
    forall p | p in c.puts && p.k < |c.job.nodes| ensures Sound(c.job.files, c.job.nodes[p.k]) {
      assert Busy(c, p.k);
    }
    SoundTreesHold(c);
  }

  /** When the semaphore is free, no chunk is busy. */
  lemma NoneBusy(c: Cached, k: nat)
    requires PutsOk(c) && k < |c.job.nodes| && Active(c.job.nodes) + RootPuts(c.puts) < 1
    ensures !Busy(c, k)
  {
    if IsActive(c.job.nodes[k]) {
      ActiveCounts(c.job.nodes, k);
    }
    forall p | p in c.puts ensures p.k != k {
      assert PutOk(c, p);
      var roots := set q | q in c.puts && q.at == [];
      if p.at == [] {
        assert p in roots;
      }
    }
  }

  lemma OneBusyWork(oom: Oom, plan: seq<Chunk>, c: Cached, b: RenderPaths.Action)
    requires forall k :: 0 <= k < |plan| ==> RightOnly(oom, plan[k])
    requires OneBusyInv(oom, plan, c) && Enabled(1, c, Work(b))
    ensures OneBusyInv(oom, plan, Apply(oom, 1, c, Work(b)))
  {
    hide Sound, StageOf, RightOnly, NodeApply, NodeEnabled, PutsOk, EntriesRight;
    var d := Apply(oom, 1, c, Work(b));
    PutsOkWork(oom, 1, c, b);
    SameEntries(c, d);
    if b.Begin? {
      forall k | 0 <= k < |plan| ensures !Busy(c, k) {
        NoneBusy(c, k);
      }
      BeginsSound(oom, d.job.files, plan[b.k], c.job.nodes[b.k]);
    } else {
      StepIsActive(c.job.files, c.job.nodes[b.k], b.at);
      assert Busy(c, b.k);
      StepStaysSound(oom, c.job.files, c.job.nodes[b.k], plan[b.k], b.at);
    }
    forall k | 0 <= k < |plan| && Busy(d, k) ensures k == b.k {
      assert k != b.k ==> Busy(c, k);
    }
  }

  lemma OneBusyCopy(oom: Oom, plan: seq<Chunk>, c: Cached, a: Action)
    requires OneBusyInv(oom, plan, c) && Enabled(1, c, a) && !a.Work?
    ensures OneBusyInv(oom, plan, Apply(oom, 1, c, a))
  {
    hide Sound, StageOf, PutsOk, EntriesRight;
    OneBusyHolds(oom, plan, c);
    CopyStep(oom, 1, c, a);
    var d := Apply(oom, 1, c, a);
    forall k | 0 <= k < |plan| && Busy(d, k) ensures Busy(c, k) {
    }
  }

  lemma {:induction false} OneBusyOnRuns(oom: Oom, plan: seq<Chunk>, a: Cached, steps: seq<Action>, b: Cached)
    requires forall k :: 0 <= k < |plan| ==> RightOnly(oom, plan[k])
    requires OneBusyInv(oom, plan, a) && Run(oom, 1, a, steps, b)
    ensures OneBusyInv(oom, plan, b)
    decreases |steps|
  {
    hide OneBusyInv, RightOnly;
    if steps != [] {
      if steps[0].Work? {
        OneBusyWork(oom, plan, a, steps[0].step);
      } else {
        OneBusyCopy(oom, plan, a, steps[0]);
      }
      OneBusyOnRuns(oom, plan, Apply(oom, 1, a, steps[0]), steps[1..], b);
    }
  }

  lemma StartsRight(oom: Oom, plan: seq<Chunk>)
    ensures ApartInv(oom, plan, Start(plan)) && OneBusyInv(oom, plan, Start(plan))
  {
  }

  // ---------------------------------------------------------------- runs without any copying

  /** Nothing has been copied yet, and a copy is under way of every finished leaf. */
  ghost predicate Pending(c: Cached) {
    && (forall p <- c.puts.Keys ::
          p.k < |c.job.nodes| && IsPlace(c.job.nodes[p.k], p.at) && NodeAt(c.job.nodes[p.k], p.at).Finished? && c.puts[p] == [])
    && (forall k: nat, at :: k < |c.job.nodes| && IsPlace(c.job.nodes[k], at) && NodeAt(c.job.nodes[k], at).Finished? ==>
          Place(k, at) in c.puts)
  }

  /** A render at one node makes no other part of the tree finished. */
  lemma {:induction false} OnlyNewLeaf(oom: Oom, files: Files, node: Node, at: seq<Turn>, place: seq<Turn>)
    requires NodeEnabled(files, node, at) && NodeAt(node, at).Todo?
    requires var (_, node') := NodeApply(oom, files, node, at);
      IsPlace(node', place) && NodeAt(node', place).Finished? && place != at
    ensures IsPlace(node, place) && NodeAt(node, place).Finished?
    decreases |at|
  {
    if at != [] && place != [] && at[0] == place[0] {
      assert at == [at[0]] + at[1..] && place == [place[0]] + place[1..];
      OnlyNewLeaf(oom, files, Half(node, at[0]), at[1..], place[1..]);
    }
  }

  /** Below a node that is yet to be rendered nothing is finished. */
  lemma {:induction false} NothingBelow(node: Node, at: seq<Turn>, place: seq<Turn>)
    requires NodeAt(node, at).Todo? && IsPlace(node, at) && IsPlace(node, place) && NodeAt(node, place).Finished?
    ensures !(at <= place)
    decreases |at|
  {
    if at <= place && at != [] {
      NothingBelow(Half(node, at[0]), at[1..], place[1..]);
    }
  }

  lemma {:induction false} EnabledIsPlace(files: Files, node: Node, at: seq<Turn>)
    requires NodeEnabled(files, node, at)
    ensures IsPlace(node, at)
    decreases |at|
  {
    if at != [] {
      EnabledIsPlace(files, Half(node, at[0]), at[1..]);
    }
  }

  lemma LiftStep(oom: Oom, parallel: int, c: Cached, k: nat, at: seq<Turn>)
    requires Pending(c) && k < |c.job.nodes| && NodeEnabled(c.job.files, c.job.nodes[k], at) && NodeAt(c.job.nodes[k], at).Todo?
    ensures Enabled(parallel, c, Work(Step(k, at)))
    ensures var d := Apply(oom, parallel, c, Work(Step(k, at))); Pending(d) && d.entries == c.entries
  {
    hide NodeApply, NodeEnabled;
    var node := c.job.nodes[k];
    EnabledIsPlace(c.job.files, node, at);
    forall p | p in c.puts && p.k == k ensures !(at <= p.at) {
      NothingBelow(node, at, p.at);
    }
    var d := Apply(oom, parallel, c, Work(Step(k, at)));
    if Rendered(c.job, d.job, Step(k, at)) {
      NewLeaf(oom, c.job.files, node, at);
    }
    forall p | p in c.puts && p.k == k
      ensures IsPlace(d.job.nodes[k], p.at) && NodeAt(d.job.nodes[k], p.at).Finished?
    {
      PlaceFrame(oom, c.job.files, node, at, p.at);
    }
    forall place | IsPlace(d.job.nodes[k], place) && NodeAt(d.job.nodes[k], place).Finished?
      ensures Place(k, place) in d.puts
    {
      if place != at {
        OnlyNewLeaf(oom, c.job.files, node, at, place);
      }
    }
  }

  /** A run of chunk k's tree that only begins renders is a run with the cache on. */
  lemma {:induction false} LiftRun(oom: Oom, parallel: int, c: Cached, k: nat, ats: seq<seq<Turn>>, files': Files, node': Node)
    returns (steps: seq<Action>, d: Cached)
    requires Pending(c) && k < |c.job.nodes|
    requires NodeRun(oom, c.job.files, c.job.nodes[k], ats, files', node') && Descends(oom, c.job.files, c.job.nodes[k], ats)
    ensures Run(oom, parallel, c, steps, d) && Pending(d) && d.entries == c.entries
    ensures d.job == Job(files', c.job.nodes[k := node'])
    decreases |ats|
  {
    hide Pending, NodeApply, NodeEnabled;
    if ats == [] {
      steps, d := [], c;
      assert c.job.nodes[k := node'] == c.job.nodes;
    } else {
      LiftStep(oom, parallel, c, k, ats[0]);
      var a := Work(Step(k, ats[0]));
      var e := Apply(oom, parallel, c, a);
      var rest;
      rest, d := LiftRun(oom, parallel, e, k, ats[1..], files', node');
      steps := [a] + rest;
      assert steps[1..] == rest;
      assert e.job.nodes[k := node'] == c.job.nodes[k := node'];
    }
  }

  lemma LiftBegin(oom: Oom, parallel: int, c: Cached, k: nat)
    requires Pending(c) && c.puts == map[] && k < |c.job.nodes| && c.job.nodes[k].Waiting? && Active(c.job.nodes) < parallel
    ensures var d := c.(job := c.job.(nodes := c.job.nodes[k := Todo(c.job.nodes[k].chunk)]));
      Run(oom, parallel, c, [Work(Begin(k))], d) && Pending(d) && Active(d.job.nodes) == Active(c.job.nodes) + 1
  {
    var a := Work(Begin(k));
    NoRootPuts();
    ActiveUpdate(c.job.nodes, k, c.job.nodes[k].chunk);
    var d := Apply(oom, parallel, c, a);
    assert [a][1..] == [] && Run(oom, parallel, d, [], d);
  }

  lemma NoRootPuts()
    ensures RootPuts(map[]) == 0
  {
    var none: map<Place, Content> := map[];
    assert (set p | p in none && p.at == []) == {};
  }

  lemma {:induction false} RunJoined(oom: Oom, parallel: int, a: Cached, s: seq<Action>, b: Cached, t: seq<Action>, c: Cached)
    requires Run(oom, parallel, a, s, b) && Run(oom, parallel, b, t, c)
    ensures Run(oom, parallel, a, s + t, c)
    decreases |s|
  {
    hide Enabled, Apply;
    if s == [] {
      assert s + t == t;
    } else {
      RunJoined(oom, parallel, Apply(oom, parallel, a, s[0]), s[1..], b, t, c);
      assert (s + t)[1..] == s[1..] + t;
    }
  }

  /** An overwritten leaf is copied as it now is, and stored under its own range. */
  lemma StoreOverwritten(oom: Oom, parallel: int, c: Cached, p: Place) returns (steps: seq<Action>, d: Cached)
    requires Pending(c) && p.k < |c.job.nodes| && OverwrittenAt(c.job.files, c.job.nodes[p.k], p.at)
    ensures Run(oom, parallel, c, steps, d) && !EntriesRight(d)
    ensures var leaf := NodeAt(c.job.nodes[p.k], p.at);
      && leaf.Finished? && leaf.path in c.job.files
      && leaf.chunk.Span() in d.entries && d.entries[leaf.chunk.Span()] == c.job.files[leaf.path]
  {
    hide PagesOf;
    var leaf := NodeAt(c.job.nodes[p.k], p.at);
    assert p == Place(p.k, p.at) && p in c.puts;
    var n := |SourceOf(c, p)|;
    var e := Apply(oom, parallel, c, Copy(p, n));
    assert e.puts[p] == SourceOf(c, p);
    d := Apply(oom, parallel, e, Store(p));
    steps := [Copy(p, n), Store(p)];
    assert steps[1..] == [Store(p)] && steps[1..][1..] == [];
    assert Run(oom, parallel, d, [], d) && Run(oom, parallel, e, [Store(p)], d);
    StartsElsewhere(c.job.files[leaf.path], leaf.chunk);
    SpanPages(leaf.chunk);
  }

  lemma StartsElsewhere(content: Content, chunk: Chunk)
    requires content != [] && content[0] != chunk.pageStart && chunk.Pages() >= 1
    ensures content != PagesOf(chunk)
  {
  }

  // ---------------------------------------------------------------- when what is stored is right

  lemma StartIsPending(plan: seq<Chunk>)
    ensures Pending(Start(plan)) && Active(Start(plan).job.nodes) == 0
  {
    NoneActive(Start(plan).job.nodes);
  }

  /** A left half halved again: a leaf of that tree is stored with another's pages. */
  lemma PoisonInOneTree(oom: Oom, parallel: int, plan: seq<Chunk>, k: nat) returns (steps: seq<Action>, c: Cached)
    requires Recoverable(oom) && parallel >= 1 && k < |plan| && !RightOnly(oom, plan[k])
    ensures Run(oom, parallel, Start(plan), steps, c) && !EntriesRight(c)
  {
    hide Run, RightOnly, Pending, NodeRun, Descends, OverwrittenAt, EntriesRight;
    var s0 := Start(plan);
    StartIsPending(plan);
    LiftBegin(oom, parallel, s0, k);
    var s1 := s0.(job := s0.job.(nodes := s0.job.nodes[k := Todo(plan[k])]));
    var ats, f, n, at := ClashInOneTree(oom, s1.job.files, plan[k]);
    var steps1, s2 := LiftRun(oom, parallel, s1, k, ats, f, n);
    RunJoined(oom, parallel, s0, [Work(Begin(k))], s1, steps1, s2);
    var steps2;
    steps2, c := StoreOverwritten(oom, parallel, s2, Place(k, at));
    steps := [Work(Begin(k))] + steps1 + steps2;
    RunJoined(oom, parallel, s0, [Work(Begin(k))] + steps1, s2, steps2, c);
  }

  /** A right half halved again, and the next chunk at work: a leaf of the one is stored with the other's pages. */
  lemma PoisonByNeighbour(oom: Oom, parallel: int, plan: seq<Chunk>, k: nat) returns (steps: seq<Action>, c: Cached)
    requires Recoverable(oom) && parallel >= 2 && k + 1 < |plan|
    requires Splits(oom, plan[k]) && Splits(oom, Subdivide(plan[k])[1])
    requires plan[k + 1].index == plan[k].index + 1.0 && plan[k + 1].pageStart == plan[k].pageEnd + 1 <= plan[k + 1].pageEnd
    ensures Run(oom, parallel, Start(plan), steps, c) && !EntriesRight(c)
  {
    hide Run, Splits, Pending, NodeRun, Descends, OverwrittenAt, EntriesRight;
    var s0 := Start(plan);
    StartIsPending(plan);
    LiftBegin(oom, parallel, s0, k);
    var s1 := s0.(job := s0.job.(nodes := s0.job.nodes[k := Todo(plan[k])]));
    LiftBegin(oom, parallel, s1, k + 1);
    var s2 := s1.(job := s1.job.(nodes := s1.job.nodes[k + 1 := Todo(plan[k + 1])]));
    var begun := [Work(Begin(k))] + [Work(Begin(k + 1))];
    RunJoined(oom, parallel, s0, [Work(Begin(k))], s1, [Work(Begin(k + 1))], s2);
    var ats, f1, n1, at, bts, f2, n2 := ClashOfNeighbours(oom, s2.job.files, plan[k], plan[k + 1]);
    var steps1, s3 := LiftRun(oom, parallel, s2, k, ats, f1, n1);
    RunJoined(oom, parallel, s0, begun, s2, steps1, s3);
    var steps2, s4 := LiftRun(oom, parallel, s3, k + 1, bts, f2, n2);
    RunJoined(oom, parallel, s0, begun + steps1, s3, steps2, s4);
    var steps3;
    steps3, c := StoreOverwritten(oom, parallel, s4, Place(k, at));
    steps := begun + steps1 + steps2 + steps3;
    RunJoined(oom, parallel, s0, begun + steps1 + steps2, s4, steps3, c);
  }

  lemma OnePoisonedRun(oom: Oom, parallel: int, plan: seq<Chunk>, steps: seq<Action>, c: Cached)
    requires Run(oom, parallel, Start(plan), steps, c) && !EntriesRight(c)
    ensures !StoredAlwaysRight(oom, parallel, plan)
  {
  }

  /**
   With two or more workers, whatever is stored in the cache holds its own pages, in every
   interleaving, if and only if the names of the scratch files stay apart.
   */
  lemma StoredRightIffNamesStayApart(oom: Oom, parallel: int, plan: seq<Chunk>, pageCount: int)
    requires Recoverable(oom) && parallel >= 2
    requires Numbered(plan) && pageCount > 0 && Tiles(Spans(plan), 1, pageCount)
    ensures StoredAlwaysRight(oom, parallel, plan) <==> NamesStayApart(oom, plan)
  {
    hide Run, RightOnly, Tiles, EntriesRight;
    if NamesStayApart(oom, plan) {
      forall steps, c | Run(oom, parallel, Start(plan), steps, c) ensures EntriesRight(c) {
        StartsRight(oom, plan);
        ApartInvOnRuns(oom, parallel, plan, Start(plan), steps, c);
      }
    } else if k: nat :| k < |plan| && !RightOnly(oom, plan[k]) {
      var steps, c := PoisonInOneTree(oom, parallel, plan, k);
      OnePoisonedRun(oom, parallel, plan, steps, c);
    } else {
      var k: nat :| k + 1 < |plan| && Splits(oom, plan[k]) && Splits(oom, Subdivide(plan[k])[1]);
      Neighbours(plan, pageCount, k);
      var steps, c := PoisonByNeighbour(oom, parallel, plan, k);
      OnePoisonedRun(oom, parallel, plan, steps, c);
    }
  }

  lemma Neighbours(plan: seq<Chunk>, pageCount: int, k: nat)
    requires pageCount > 0 && Tiles(Spans(plan), 1, pageCount) && k + 1 < |plan|
    ensures plan[k + 1].pageStart == plan[k].pageEnd + 1 <= plan[k + 1].pageEnd
  {
    TilesToIndex(Spans(plan), 1, pageCount);
    var rs := Spans(plan);
    assert rs[k] == plan[k].Span() && rs[k + 1] == plan[k + 1].Span();
  }

  /** With a single worker it does if and only if no left half is halved again. */
  lemma StoredRightIffOnePermit(oom: Oom, plan: seq<Chunk>)
    requires Recoverable(oom)
    ensures StoredAlwaysRight(oom, 1, plan) <==> forall k :: 0 <= k < |plan| ==> RightOnly(oom, plan[k])
  {
    hide Run, RightOnly, EntriesRight;
    if k: nat :| k < |plan| && !RightOnly(oom, plan[k]) {
      var steps, c := PoisonInOneTree(oom, 1, plan, k);
      OnePoisonedRun(oom, 1, plan, steps, c);
    } else {
      forall steps, c | Run(oom, 1, Start(plan), steps, c) ensures EntriesRight(c) {
        StartsRight(oom, plan);
        OneBusyOnRuns(oom, plan, Start(plan), steps, c);
      }
    }
  }

  /** And under these conditions the source of every copy under way holds the pages it is stored for. */
  lemma SourcesAlwaysHold(oom: Oom, parallel: int, plan: seq<Chunk>, steps: seq<Action>, c: Cached)
    requires Run(oom, parallel, Start(plan), steps, c)
    requires || (NamesStayApart(oom, plan) && Numbered(plan))
             || (parallel == 1 && forall k :: 0 <= k < |plan| ==> RightOnly(oom, plan[k]))
    ensures SourcesHold(c) && Placed(oom, plan, c)
  {
    hide Run, SourcesHold, ApartInv, OneBusyInv;
    StartsRight(oom, plan);
    if NamesStayApart(oom, plan) && Numbered(plan) {
      ApartInvOnRuns(oom, parallel, plan, Start(plan), steps, c);
      ApartInvHolds(oom, plan, c);
      ApartInvPlaces(oom, plan, c);
    } else {
      OneBusyOnRuns(oom, plan, Start(plan), steps, c);
      OneBusyHolds(oom, plan, c);
      OneBusyPlaces(oom, plan, c);
    }
  }

  /** Copies are of parts of the plan's chunks. */
  ghost predicate Placed(oom: Oom, plan: seq<Chunk>, c: Cached) {
    && |c.job.nodes| == |plan| && PutsOk(c)
    && forall k :: 0 <= k < |plan| ==> StageOf(oom, c.job.nodes[k], plan[k])
  }

  lemma ApartInvPlaces(oom: Oom, plan: seq<Chunk>, c: Cached)
    requires ApartInv(oom, plan, c)
    ensures Placed(oom, plan, c)
  {
  }

  lemma OneBusyPlaces(oom: Oom, plan: seq<Chunk>, c: Cached)
    requires OneBusyInv(oom, plan, c)
    ensures Placed(oom, plan, c)
  {
  }

  /** A part of a chunk's tree lies within the chunk. */
  lemma {:induction false} PlaceWithin(oom: Oom, node: Node, chunk: Chunk, at: seq<Turn>)
    requires StageOf(oom, node, chunk) && IsPlace(node, at) && chunk.Pages() >= 1
    ensures chunk.pageStart <= NodeAt(node, at).chunk.pageStart <= NodeAt(node, at).chunk.pageEnd <= chunk.pageEnd
    decreases |at|
  {
    if at != [] {
      PlaceWithin(oom, Half(node, at[0]), if at[0].L? then Subdivide(chunk)[0] else Subdivide(chunk)[1], at[1..]);
    }
  }

  /**
   The example of NameClashes with the cache on: page 4 is rendered to chunk-1.0.pdf, pages 5 to 8
   overwrite it before it is copied, and the key of page 4 holds pages 5 to 8 from then on.
   */
  lemma PoisonedEntry() returns (steps: seq<Action>, c: Cached)
    ensures Run(TwoRangesTooBig(), 2, Start(TWO_CHUNKS), steps, c)
    ensures (4, 4) in c.entries && c.entries[(4, 4)] == [5, 6, 7, 8]
  {
    hide Run, Pending, NodeRun, Descends;
    var oom, s0 := TwoRangesTooBig(), Start(TWO_CHUNKS);
    StartIsPending(TWO_CHUNKS);
    LiftBegin(oom, 2, s0, 0);
    var s1 := s0.(job := s0.job.(nodes := s0.job.nodes[0 := Todo(TWO_CHUNKS[0])]));
    LiftBegin(oom, 2, s1, 1);
    var s2 := s1.(job := s1.job.(nodes := s1.job.nodes[1 := Todo(TWO_CHUNKS[1])]));
    var begun := [Work(Begin(0))] + [Work(Begin(1))];
    RunJoined(oom, 2, s0, [Work(Begin(0))], s1, [Work(Begin(1))], s2);
    var ats, f1, n1 := FirstChunkWritten(oom, s2.job.files);
    var steps1, s3 := LiftRun(oom, 2, s2, 0, ats, f1, n1);
    RunJoined(oom, 2, s0, begun, s2, steps1, s3);
    var f2 := f1[ChunkFile(1.0) := [5, 6, 7, 8]];
    assert PagesOf(TWO_CHUNKS[1]) == [5, 6, 7, 8];
    NodeStep(oom, f1, Todo(TWO_CHUNKS[1]), f2, Finished(TWO_CHUNKS[1], ChunkFile(1.0)));
    var steps2, s4 := LiftRun(oom, 2, s3, 1, [[]], f2, Finished(TWO_CHUNKS[1], ChunkFile(1.0)));
    RunJoined(oom, 2, s0, begun + steps1, s3, steps2, s4);
    FourthLeaf(f2, s4.job.nodes[0]);
    var steps3;
    steps3, c := StoreOverwritten(oom, 2, s4, Place(0, [R, R]));
    steps := begun + steps1 + steps2 + steps3;
    RunJoined(oom, 2, s0, begun + steps1 + steps2, s4, steps3, c);
  }

  lemma FourthLeaf(files: Files, node: Node)
    requires node == FIRST_CHUNK_LEAVES && ChunkFile(1.0) in files && files[ChunkFile(1.0)] == [5, 6, 7, 8]
    ensures OverwrittenAt(files, node, [R, R]) && NodeAt(node, [R, R]) == Finished(Chunk(1.0, 4, 4, false), ChunkFile(1.0))
  {
    assert [R, R][1..] == [R] && [R][1..] == [];
    assert IsPlace(node.right.right, []) && IsPlace(node.right, [R]) && NodeAt(node.right, [R]) == NodeAt(node.right.right, []);
    assert LeafAt(node, [R, R], 1.0, 4) && FileStarts(files, 1.0, 5);
  }
}
