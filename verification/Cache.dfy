/**
 The file cache. Files are written under temporary names and renamed when complete, by any number
 of jobs at once, while a clear may unlink anything at any moment.
 */
module Cache {
  import opened Basics
  import opened Types
  import opened Decimals
  import opened PdfPages

  type Content = seq<Page>

  /** What a file in the cache is the result of: a page range of a source, or a whole conversion. */
  datatype Unit =
    | Part(digest: string, pageStart: int, pageEnd: int, format: string)
    | Whole(digest: string, format: string)

  datatype Path = ChunkEntry(key: string) | FinalEntry(digest: string) | Temp(n: nat)

  // ---------------------------------------------------------------- keys

  /** The text that is hashed for a chunk's key. The hash itself is taken to be free of collisions. */
  function KeyText(digest: string, pageStart: int, pageEnd: int, format: string): string {
    digest + (":" + (Signed(pageStart) + ("-" + (Signed(pageEnd) + (":" + format)))))
  }

  /** A whole conversion is filed under the source alone. */
  function EntryOf(u: Unit): Path {
    match u
    case Part(digest, pageStart, pageEnd, format) => ChunkEntry(KeyText(digest, pageStart, pageEnd, format))
    case Whole(digest, _) => FinalEntry(digest)
  }

  ghost predicate HexDigest(s: string) {
    forall i :: 0 <= i < |s| ==> IsDigit(s[i]) || 'a' <= s[i] <= 'f'
  }

  lemma {:induction false} DigestEnds(a: string, b: string, x: string, y: string)
    requires HexDigest(a) && HexDigest(b) && a + (":" + x) == b + (":" + y)
    ensures a == b && x == y
  {
    var s, t := a + (":" + x), b + (":" + y);
    assert s[0] == (if a == "" then ':' else a[0]) && t[0] == (if b == "" then ':' else b[0]);
    if a == "" {
      assert b == "";
      assert s[1..] == x && t[1..] == y;
    } else {
      assert s[1..] == a[1..] + (":" + x) && t[1..] == b[1..] + (":" + y);
      DigestEnds(a[1..], b[1..], x, y);
      assert a == [a[0]] + a[1..] && b == [b[0]] + b[1..];
    }
  }

  lemma DecimalEnds(m: nat, n: nat, x: string, y: string)
    requires x != "" && y != "" && !IsDigit(x[0]) && !IsDigit(y[0])
    requires Decimal(m) + x == Decimal(n) + y
    ensures m == n && x == y
  {
    DecimalThenMore(m, x);
    DecimalThenMore(n, y);
  }

  lemma FirstOfSigned(a: int, x: string)
    ensures Signed(a) != "" && (Signed(a) + x)[0] == Signed(a)[0]
    ensures Signed(a)[0] == '-' <==> a < 0
    ensures a < 0 ==> (Signed(a) + x)[1..] == Decimal(-a) + x
  {
    assert a >= 0 ==> IsDigit(Decimal(a)[0]);
  }

  lemma NumberEnds(a: int, b: int, x: string, y: string)
    requires x != "" && y != "" && !IsDigit(x[0]) && !IsDigit(y[0])
    requires Signed(a) + x == Signed(b) + y
    ensures a == b && x == y
  {
    hide Decimal;
    FirstOfSigned(a, x);
    FirstOfSigned(b, y);
    if a < 0 {
      DecimalEnds(-a, -b, x, y);
    } else {
      DecimalEnds(a, b, x, y);
    }
  }

  /** Different parts have different keys. */
  lemma KeysTellPartsApart(a: Unit, b: Unit)
    requires a.Part? && b.Part? && HexDigest(a.digest) && HexDigest(b.digest)
    requires EntryOf(a) == EntryOf(b)
    ensures a == b
  {
    hide Signed;
    var a1, b1 := ":" + a.format, ":" + b.format;
    var a2, b2 := "-" + (Signed(a.pageEnd) + a1), "-" + (Signed(b.pageEnd) + b1);
    DigestEnds(a.digest, b.digest, Signed(a.pageStart) + a2, Signed(b.pageStart) + b2);
    NumberEnds(a.pageStart, b.pageStart, a2, b2);
    assert a2[1..] == Signed(a.pageEnd) + a1 && b2[1..] == Signed(b.pageEnd) + b1;
    NumberEnds(a.pageEnd, b.pageEnd, a1, b1);
    assert a1[1..] == a.format && b1[1..] == b.format;
  }

  // ---------------------------------------------------------------- all jobs and the file system, step by step

  /** names is the directory, data the files behind it; a file without a name lives on while it is open. */
  datatype Fs = Fs(names: map<Path, nat>, data: map<nat, Content>)

  /** A file being written: what it is stored as, and the scratch file, or merge output, it is copied from. */
  datatype Writer = Writer(unit: Unit, source: string)

  datatype Reader = Reader(want: Unit, file: nat)

  /** The temporary name of a file being written bears its number. scratch holds the files that jobs render and merge into. */
  datatype Store = Store(fs: Fs, writers: map<nat, Writer>, readers: map<nat, Reader>, scratch: map<string, Content>)

  const EMPTY := Store(Fs(map[], map[]), map[], map[], map[])

  /** What rendering from scratch gives. */
  type Render = Unit -> Content

  /** What a part of this source, in this format, renders to. */
  ghost predicate RendersSlices(doc: seq<Page>, digest: string, format: string, render: Render) {
    forall a, b :: 1 <= a <= b && a - 1 <= |doc| ==> render(Part(digest, a, b, format)) == Slice(doc, a, b)
  }

  function PartOf(chunk: Chunk, digest: string, format: string): Unit {
    Part(digest, chunk.pageStart, chunk.pageEnd, format)
  }

  datatype Action =
    | Rewrite(name: string, content: Content)
    | Create(file: nat, writer: Writer)
    | Append(file: nat, n: nat)
    | Publish(file: nat)
    | Abort(file: nat)
    | Crash(file: nat)
    | Unlink(path: Path)
    | Open(id: nat, want: Unit)

  function SourceOf(s: Store, file: nat): Content
    requires file in s.writers && s.writers[file].source in s.scratch
  {
    s.scratch[s.writers[file].source]
  }

  ghost predicate Copying(s: Store, file: nat) {
    file in s.writers && file in s.fs.data && s.writers[file].source in s.scratch
  }

  /**
   Scratch files may be written anew at any time. A publish needs the end of the source to have
   been reached, an open the name to be there; neither looks at what has been copied.
   */
  ghost predicate Enabled(units: set<Unit>, s: Store, a: Action) {
    match a
    case Rewrite(_, _) => true
    case Create(file, writer) => file !in s.fs.data && writer.unit in units && writer.source in s.scratch
    case Append(file, n) => Copying(s, file) && |s.fs.data[file]| + n <= |SourceOf(s, file)|
    case Publish(file) => Copying(s, file) && |s.fs.data[file]| >= |SourceOf(s, file)|
    case Abort(file) => file in s.writers
    case Crash(file) => file in s.writers
    case Unlink(path) => path in s.fs.names
    case Open(_, want) => want in units && EntryOf(want) in s.fs.names
  }

  function Unnamed(fs: Fs, path: Path): Fs {
    fs.(names := fs.names - {path})
  }

  /** Renaming fails when a clear has taken the temporary name away; nobody notices. */
  function Renamed(fs: Fs, temp: Path, target: Path): Fs {
    if temp in fs.names then fs.(names := (fs.names - {temp})[target := fs.names[temp]]) else fs
  }

  ghost function Apply(units: set<Unit>, s: Store, a: Action): Store
    requires Enabled(units, s, a)
  {
    match a
    case Rewrite(name, content) => s.(scratch := s.scratch[name := content])
    case Create(file, writer) =>
      s.(fs := Fs(s.fs.names[Temp(file) := file], s.fs.data[file := []]), writers := s.writers[file := writer])
    case Append(file, n) =>
      var done := |s.fs.data[file]|;
      s.(fs := s.fs.(data := s.fs.data[file := s.fs.data[file] + SourceOf(s, file)[done..done + n]]))
    case Publish(file) =>
      s.(fs := Renamed(s.fs, Temp(file), EntryOf(s.writers[file].unit)), writers := s.writers - {file})
    case Abort(file) => s.(fs := Unnamed(s.fs, Temp(file)), writers := s.writers - {file})
    case Crash(file) => s.(writers := s.writers - {file})
    case Unlink(path) => s.(fs := Unnamed(s.fs, path))
    case Open(id, want) => s.(readers := s.readers[id := Reader(want, s.fs.names[EntryOf(want)])])
  }

  ghost predicate Run(units: set<Unit>, a: Store, steps: seq<Action>, b: Store)
    decreases |steps|
  {
    if steps == [] then a == b
    else Enabled(units, a, steps[0]) && Run(units, Apply(units, a, steps[0]), steps[1..], b)
  }

  /** The source of every file being written holds what the file is to be stored as. */
  ghost predicate Trusted(render: Render, s: Store) {
    forall file <- s.writers.Keys ::
      s.writers[file].source in s.scratch && SourceOf(s, file) == render(s.writers[file].unit)
  }

  /** A run in which the sources can be trusted all the time. PoolWithCache and CacheSources say when they can. */
  ghost predicate TrustedRun(units: set<Unit>, render: Render, a: Store, steps: seq<Action>, b: Store)
    decreases |steps|
  {
    Trusted(render, a) &&
    if steps == [] then a == b
    else Enabled(units, a, steps[0]) && TrustedRun(units, render, Apply(units, a, steps[0]), steps[1..], b)
  }

  /** The file is finished and is the render of some unit filed under the path. */
  ghost predicate Complete(units: set<Unit>, render: Render, s: Store, path: Path, file: nat) {
    && file in s.fs.data && file !in s.writers
    && exists u <- units :: EntryOf(u) == path && s.fs.data[file] == render(u)
  }

  ghost predicate WriterOk(units: set<Unit>, render: Render, s: Store, file: nat) {
    && file in s.writers && file in s.fs.data && s.writers[file].unit in units
    && s.fs.data[file] <= render(s.writers[file].unit)
  }

  /** Whatever stands under a key, or was once opened there, is complete. */
  ghost predicate Inv(units: set<Unit>, render: Render, s: Store) {
    && (forall p <- s.fs.names.Keys :: if p.Temp? then s.fs.names[p] == p.n else Complete(units, render, s, p, s.fs.names[p]))
    && (forall file <- s.writers.Keys :: WriterOk(units, render, s, file))
    && (forall id <- s.readers.Keys :: s.readers[id].want in units && Complete(units, render, s, EntryOf(s.readers[id].want), s.readers[id].file))
  }

  lemma CompleteStays(units: set<Unit>, render: Render, s: Store, t: Store, path: Path, file: nat)
    requires Complete(units, render, s, path, file)
    requires file in t.fs.data && t.fs.data[file] == s.fs.data[file] && file !in t.writers
    ensures Complete(units, render, t, path, file)
  {
  }

  lemma PrefixGrows(copied: Content, whole: Content, n: nat)
    requires copied <= whole && |copied| + n <= |whole|
    ensures copied + whole[|copied|..|copied| + n] <= whole
  {
  }

  /** A step from a state whose sources can be trusted keeps what is visible complete. */
  lemma InvStep(units: set<Unit>, render: Render, s: Store, a: Action)
    requires Inv(units, render, s) && Trusted(render, s) && Enabled(units, s, a)
    ensures Inv(units, render, Apply(units, s, a))
  {
    hide Complete, KeyText;
    var t := Apply(units, s, a);
    forall p, file | Complete(units, render, s, p, file) ensures Complete(units, render, t, p, file) {
      CompleteFile(units, render, s, p, file);
      CompleteStays(units, render, s, t, p, file);
    }
    forall file | file in t.writers ensures WriterOk(units, render, t, file) {
      if file in s.writers {
        assert WriterOk(units, render, s, file);
        if a.Append? && a.file == file {
          PrefixGrows(s.fs.data[file], render(s.writers[file].unit), a.n);
        }
      }
    }
    if a.Publish? {
      assert WriterOk(units, render, s, a.file);
      PublishedIsComplete(units, render, s, a.file);
    }
  }

  lemma CompleteFile(units: set<Unit>, render: Render, s: Store, path: Path, file: nat)
    requires Complete(units, render, s, path, file)
    ensures file in s.fs.data && file !in s.writers
  {
  }

  lemma PublishedIsComplete(units: set<Unit>, render: Render, s: Store, file: nat)
    requires Enabled(units, s, Publish(file)) && WriterOk(units, render, s, file) && Trusted(render, s)
    ensures Complete(units, render, Apply(units, s, Publish(file)), EntryOf(s.writers[file].unit), file)
  {
    assert s.fs.data[file] == render(s.writers[file].unit);
  }

  lemma {:induction false} InvOnRuns(units: set<Unit>, render: Render, a: Store, steps: seq<Action>, b: Store)
    requires Inv(units, render, a) && TrustedRun(units, render, a, steps, b)
    ensures Inv(units, render, b)
    decreases |steps|
  {
    hide Inv, Trusted;
    if steps != [] {
      InvStep(units, render, a, steps[0]);
      InvOnRuns(units, render, Apply(units, a, steps[0]), steps[1..], b);
    }
  }

  lemma NothingStored(units: set<Unit>, render: Render)
    ensures Inv(units, render, EMPTY)
  {
  }

  // ---------------------------------------------------------------- what readers get

  /**
   In every run whose sources can be trusted, every file visible under a key is complete: never a
   partial one, whatever is interrupted, fails or is cleared.
   */
  lemma VisibleIsComplete(units: set<Unit>, render: Render, steps: seq<Action>, s: Store, path: Path)
    requires TrustedRun(units, render, EMPTY, steps, s) && path in s.fs.names && !path.Temp?
    ensures s.fs.names[path] in s.fs.data
    ensures exists u <- units :: EntryOf(u) == path && s.fs.data[s.fs.names[path]] == render(u)
  {
    NothingStored(units, render);
    InvOnRuns(units, render, EMPTY, steps, s);
    assert Complete(units, render, s, path, s.fs.names[path]);
  }

  ghost predicate DigestsAreHex(units: set<Unit>) {
    forall u <- units :: HexDigest(u.digest)
  }

  /** A chunk found in the cache reads, now and later, as its own render from scratch. */
  lemma ChunkHitIsRight(units: set<Unit>, render: Render, steps: seq<Action>, s: Store, id: nat)
    requires DigestsAreHex(units) && TrustedRun(units, render, EMPTY, steps, s)
    requires id in s.readers && s.readers[id].want.Part?
    ensures s.readers[id].file in s.fs.data && s.fs.data[s.readers[id].file] == render(s.readers[id].want)
  {
    hide KeyText;
    NothingStored(units, render);
    InvOnRuns(units, render, EMPTY, steps, s);
    var want := s.readers[id].want;
    assert Complete(units, render, s, EntryOf(want), s.readers[id].file);
    var u :| u in units && EntryOf(u) == EntryOf(want) && s.fs.data[s.readers[id].file] == render(u);
    KeysTellPartsApart(u, want);
  }

  /** How a job came by a chunk. */
  datatype Pick = Hit(id: nat) | Fresh

  ghost predicate Picked(units: set<Unit>, s: Store, chunks: seq<Unit>, picks: seq<Pick>) {
    && |picks| == |chunks|
    && forall i :: 0 <= i < |chunks| ==>
         chunks[i].Part? && chunks[i] in units && (picks[i].Hit? ==> picks[i].id in s.readers && s.readers[picks[i].id].want == chunks[i])
  }

  /** The merged output: hits as they read, the rest rendered. */
  ghost function Output(render: Render, s: Store, chunks: seq<Unit>, picks: seq<Pick>): Content
    requires |picks| == |chunks|
  {
    if chunks == [] then []
    else
      var piece :=
        if picks[0].Hit? && picks[0].id in s.readers && s.readers[picks[0].id].file in s.fs.data
        then s.fs.data[s.readers[picks[0].id].file] else render(chunks[0]);
      piece + Output(render, s, chunks[1..], picks[1..])
  }

  function AllFresh(n: nat): seq<Pick> {
    seq(n, _ => Fresh)
  }

  /** A job's output does not depend on which of its chunks came from the cache. */
  lemma {:induction false} CacheIsTransparent(units: set<Unit>, render: Render, steps: seq<Action>, s: Store, chunks: seq<Unit>, picks: seq<Pick>)
    requires DigestsAreHex(units) && TrustedRun(units, render, EMPTY, steps, s) && Picked(units, s, chunks, picks)
    ensures Output(render, s, chunks, picks) == Output(render, s, chunks, AllFresh(|chunks|))
  {
    hide TrustedRun, DigestsAreHex;
    if chunks != [] {
      CacheIsTransparent(units, render, steps, s, chunks[1..], picks[1..]);
      assert AllFresh(|chunks|)[1..] == AllFresh(|chunks[1..]|);
      if picks[0].Hit? {
        ChunkHitIsRight(units, render, steps, s, picks[0].id);
      }
    }
  }

  // ---------------------------------------------------------------- runs spelled out

  ghost predicate Step(units: set<Unit>, s: Store, a: Action, t: Store) {
    Enabled(units, s, a) && t == Apply(units, s, a)
  }

  const SOURCE := "chunk.pdf"

  function Copied(scratch: Content, data: Content, w: Writer): Store {
    Store(Fs(map[Temp(0) := 0], map[0 := data]), map[0 := w], map[], map[SOURCE := scratch])
  }

  /** A copy begun while the source holds one content, and made while it holds another. */
  lemma CopyMade(units: set<Unit>, before: Content, x: Content, u: Unit) returns (s1: Store)
    requires u in units
    ensures var w := Writer(u, SOURCE);
      && Step(units, EMPTY, Rewrite(SOURCE, before), s1) && s1.writers == map[]
      && Step(units, s1, Create(0, w), Copied(before, [], w))
      && Step(units, Copied(before, [], w), Rewrite(SOURCE, x), Copied(x, [], w))
      && Step(units, Copied(x, [], w), Append(0, |x|), Copied(x, x, w))
  {
    s1 := Apply(units, EMPTY, Rewrite(SOURCE, before));
    assert [] + x[0..0 + |x|] == x;
  }

  lemma CopyOpened(units: set<Unit>, x: Content, u: Unit, want: Unit) returns (s5: Store, s6: Store)
    requires want in units && EntryOf(u) == EntryOf(want)
    ensures Step(units, Copied(x, x, Writer(u, SOURCE)), Publish(0), s5) && Step(units, s5, Open(0, want), s6)
    ensures s5.writers == s6.writers == map[] && s6.readers == map[0 := Reader(want, 0)] && s6.fs.data == map[0 := x]
  {
    hide EntryOf;
    s5 := Apply(units, Copied(x, x, Writer(u, SOURCE)), Publish(0));
    assert s5.fs.names[EntryOf(u)] == 0;
    s6 := Apply(units, s5, Open(0, want));
  }

  /** A copy made while the source holds x, published and opened. */
  lemma CopiedThrough(units: set<Unit>, before: Content, x: Content, u: Unit, want: Unit) returns (steps: seq<Action>, states: seq<Store>)
    requires u in units && want in units && EntryOf(u) == EntryOf(want)
    ensures |states| == |steps| + 1 && states[0] == EMPTY
    ensures forall i :: 0 <= i < |steps| ==> Step(units, states[i], steps[i], states[i + 1])
    ensures var s := states[|steps|];
      0 in s.readers && s.readers[0] == Reader(want, 0) && 0 in s.fs.data && s.fs.data[0] == x
    ensures before == x ==> forall s <- states, f <- s.writers.Keys ::
      s.writers[f] == Writer(u, SOURCE) && SOURCE in s.scratch && s.scratch[SOURCE] == x
  {
    hide EntryOf, Step;
    var w := Writer(u, SOURCE);
    var s1 := CopyMade(units, before, x, u);
    var s5, s6 := CopyOpened(units, x, u, want);
    steps := [Rewrite(SOURCE, before), Create(0, w), Rewrite(SOURCE, x), Append(0, |x|), Publish(0), Open(0, want)];
    states := [EMPTY, s1, Copied(before, [], w), Copied(x, [], w), Copied(x, x, w), s5, s6];
  }

  lemma {:induction false} StatesMakeRun(units: set<Unit>, render: Render, states: seq<Store>, steps: seq<Action>)
    requires |states| == |steps| + 1
    requires forall i :: 0 <= i < |steps| ==> Step(units, states[i], steps[i], states[i + 1])
    ensures Run(units, states[0], steps, states[|steps|])
    ensures (forall s <- states :: Trusted(render, s)) ==> TrustedRun(units, render, states[0], steps, states[|steps|])
    decreases |steps|
  {
    hide Enabled, Apply, Trusted;
    assert states[0] in states;
    if steps != [] {
      StatesMakeRun(units, render, states[1..], steps[1..]);
    }
  }

  /**
   Trust is needed: for every unit and every other content there is a run in which the source is
   written over between render and copy, and a reader of the unit gets that content.
   */
  lemma RewrittenSourcePoisons(units: set<Unit>, render: Render, u: Unit, x: Content) returns (steps: seq<Action>, s: Store)
    requires u in units && x != render(u)
    ensures Run(units, EMPTY, steps, s)
    ensures 0 in s.readers && s.readers[0].want == u && s.readers[0].file in s.fs.data && s.fs.data[s.readers[0].file] == x
  {
    hide Run, TrustedRun, Enabled, Apply;
    var states;
    steps, states := CopiedThrough(units, render(u), x, u, u);
    StatesMakeRun(units, render, states, steps);
    s := states[|steps|];
  }

  // ---------------------------------------------------------------- whole conversions

  /** In every run with trusted sources, whatever is found in the cache reads as it would be rendered from scratch. */
  ghost predicate EveryHitRight(units: set<Unit>, render: Render) {
    forall steps, s, id :: TrustedRun(units, render, EMPTY, steps, s) && id in s.readers ==> HitRight(render, s, id)
  }

  ghost predicate HitRight(render: Render, s: Store, id: nat)
    requires id in s.readers
  {
    s.readers[id].file in s.fs.data && s.fs.data[s.readers[id].file] == render(s.readers[id].want)
  }

  /** Conversions of one source in different formats, if any, come out the same. */
  ghost predicate FormatImmaterial(units: set<Unit>, render: Render) {
    forall u, v :: u in units && v in units && u.Whole? && v.Whole? && u.digest == v.digest ==> render(u) == render(v)
  }

  /** A conversion stored, and found by one of the same source in another format. */
  lemma StoredForAnother(units: set<Unit>, render: Render, u: Unit, v: Unit) returns (steps: seq<Action>, s: Store)
    requires u in units && v in units && u.Whole? && v.Whole? && u.digest == v.digest
    ensures TrustedRun(units, render, EMPTY, steps, s) && 0 in s.readers && s.readers[0].want == v
    ensures s.readers[0].file in s.fs.data && s.fs.data[s.readers[0].file] == render(u)
  {
    hide Run, TrustedRun, Enabled, Apply;
    var states;
    steps, states := CopiedThrough(units, render(u), render(u), u, v);
    forall t | t in states ensures Trusted(render, t) {
    }
    StatesMakeRun(units, render, states, steps);
    s := states[|steps|];
  }

  /**
   The key of a whole conversion leaves out the format. With trusted sources the cache is
   transparent in every run if and only if no source is converted in two formats with different results.
   */
  lemma HitsRightIffFormatImmaterial(units: set<Unit>, render: Render)
    requires DigestsAreHex(units)
    ensures EveryHitRight(units, render) <==> FormatImmaterial(units, render)
  {
    hide TrustedRun, KeyText, DigestsAreHex;
    if FormatImmaterial(units, render) {
      forall steps, s, id | TrustedRun(units, render, EMPTY, steps, s) && id in s.readers ensures HitRight(render, s, id) {
        if s.readers[id].want.Part? {
          ChunkHitIsRight(units, render, steps, s, id);
        } else {
          WholeHitIsOfItsSource(units, render, steps, s, id);
        }
      }
    }
    if EveryHitRight(units, render) {
      forall u, v | u in units && v in units && u.Whole? && v.Whole? && u.digest == v.digest ensures render(u) == render(v) {
        var steps, s := StoredForAnother(units, render, u, v);
        assert HitRight(render, s, 0);
      }
    }
  }

  /** What is found for a whole conversion is a conversion of the same source. */
  lemma WholeHitIsOfItsSource(units: set<Unit>, render: Render, steps: seq<Action>, s: Store, id: nat)
    requires TrustedRun(units, render, EMPTY, steps, s) && id in s.readers && s.readers[id].want.Whole?
    ensures s.readers[id].file in s.fs.data && s.readers[id].want in units
    ensures exists u <- units :: u.Whole? && u.digest == s.readers[id].want.digest && s.fs.data[s.readers[id].file] == render(u)
  {
    hide TrustedRun, KeyText;
    NothingStored(units, render);
    InvOnRuns(units, render, EMPTY, steps, s);
    var want := s.readers[id].want;
    assert Complete(units, render, s, EntryOf(want), s.readers[id].file);
    var u :| u in units && EntryOf(u) == EntryOf(want) && s.fs.data[s.readers[id].file] == render(u);
    assert u.Whole? && u.digest == want.digest;
  }

  // ---------------------------------------------------------------- one job's operations as code

  /** What may go wrong while a file is written: nothing, the copy stopping early, or the rename. */
  datatype Trouble = NoTrouble | CopyStops(after: nat) | RenameFails

  /** The file system after content was copied under a temporary name and renamed, as far as that went. */
  function AfterWrite(fs: Fs, file: nat, target: Path, content: Content, trouble: Trouble): Fs {
    var n := if trouble.CopyStops? then Min(trouble.after, |content|) else |content|;
    if n < |content| || trouble.RenameFails? then Fs(fs.names - {Temp(file)}, fs.data[file := content[..n]])
    else Fs((fs.names - {Temp(file)})[target := file], fs.data[file := content])
  }

  class Directory {
    var fs: Fs
    var next: nat

    /** Every name leads to a file, and no file number from next on is in use. */
    ghost predicate Valid()
      reads this
    {
      && (forall p <- fs.names.Keys :: fs.names[p] in fs.data)
      && (forall f <- fs.data.Keys :: f < next)
      && (forall p <- fs.names.Keys :: p.Temp? ==> p.n < next)
    }

    constructor ()
      ensures Valid() && fs == Fs(map[], map[])
    {
      fs, next := Fs(map[], map[]), 0;
    }

    /** Copies a file's content into an open file that is still empty, as far as that goes. */
    method CopyInto(file: nat, content: Content, trouble: Trouble) returns (copied: nat)
      requires file in fs.data && fs.data[file] == []
      modifies this`fs
      ensures copied == if trouble.CopyStops? then Min(trouble.after, |content|) else |content|
      ensures fs == Fs(old(fs.names), old(fs.data)[file := content[..copied]])
    {
      copied := 0;
      while copied < |content| && !(trouble.CopyStops? && copied >= trouble.after)
        invariant copied <= if trouble.CopyStops? then Min(trouble.after, |content|) else |content|
        invariant fs == Fs(old(fs.names), old(fs.data)[file := content[..copied]])
      {
        copied := copied + 1;
        fs := fs.(data := fs.data[file := content[..copied]]);
      }
    }

    /**
     Copies a file under a temporary name and renames it. The target then holds the whole source
     or is what it was; no other name has changed, and no temporary name is left behind.
     */
    method AtomicWrite(target: Path, source: Path, trouble: Trouble) returns (ok: bool)
      requires Valid() && !target.Temp?
      modifies this
      ensures Valid()
      ensures ok ==> source in old(fs.names) && trouble != RenameFails
      ensures ok ==> target in fs.names && fs.data[fs.names[target]] == old(fs.data[fs.names[source]])
      ensures fs.names - {target} == old(fs.names) - {target}
      ensures !ok ==> fs.names == old(fs.names)
      ensures forall f <- old(fs.data).Keys :: f in fs.data && fs.data[f] == old(fs.data)[f]
      ensures source in old(fs.names) && trouble.NoTrouble? ==> ok
      ensures source in old(fs.names) ==>
        fs == AfterWrite(old(fs), old(next), target, old(fs.data[fs.names[source]]), trouble) && next == old(next) + 1
    {
      if source !in fs.names {
        return false;
      }
      var content := fs.data[fs.names[source]];
      var file, tmp := next, Temp(next);
      fs, next := Fs(fs.names[tmp := file], fs.data[file := []]), next + 1;
      var copied := CopyInto(file, content, trouble);
      assert fs == Fs(old(fs.names)[tmp := file], old(fs.data)[file := content[..copied]]) && content[..|content|] == content;
      assert old(fs.names)[tmp := file] - {tmp} == old(fs.names) == old(fs.names) - {tmp};
      if copied < |content| || trouble.RenameFails? {
        fs := Unnamed(fs, tmp);
        return false;
      }
      fs := Renamed(fs, tmp, target);
      ok := true;
    }

    /**
     Unlinks every file of a listing but those that cannot be; counts what is deleted, what is
     freed and what fails.
     */
    method Clear(listing: seq<Path>, stuck: set<Path>) returns (deleted: nat, freed: nat, errors: nat)
      requires Valid()
      requires forall p <- listing :: p in fs.names
      requires forall i, j :: 0 <= i < j < |listing| ==> listing[i] != listing[j]
      modifies this`fs
      ensures Valid() && fs.data == old(fs.data)
      ensures forall p <- old(fs.names).Keys :: p in fs.names <==> p !in listing || p in stuck
      ensures forall p <- fs.names.Keys :: p in old(fs.names) && fs.names[p] == old(fs.names)[p]
      ensures errors == |KeptBack(listing, stuck)| && deleted == |listing| - errors
      ensures freed + SizeOf(fs, KeptBack(listing, stuck)) == SizeOf(old(fs), listing)
    {
      hide SizeOf, KeptBack;
      deleted, freed, errors := 0, 0, 0;
      ghost var was := fs;
      NothingToClear(was, stuck);
      for i := 0 to |listing|
        invariant fs.data == was.data && errors == |KeptBack(listing[..i], stuck)| && deleted == i - errors
        invariant forall p <- fs.names.Keys :: p in was.names && fs.names[p] == was.names[p]
        invariant forall p <- was.names.Keys :: p in fs.names <==> p !in listing[..i] || p in stuck
        invariant freed + SizeOf(was, KeptBack(listing[..i], stuck)) == SizeOf(was, listing[..i])
      {
        var p := listing[i];
        assert listing[..i + 1] == listing[..i] + [p];
        SizeGrows(was, listing[..i], p);
        KeptGrows(was, listing[..i], stuck, p);
        if p in stuck {
          errors := errors + 1;
        } else {
          assert p in fs.names && fs.names[p] == was.names[p];
          freed := freed + |fs.data[fs.names[p]]|;
          fs := Unnamed(fs, p);
          deleted := deleted + 1;
        }
      }
      assert listing[..|listing|] == listing;
      KeptAreStuck(listing, stuck);
      SizeFrame(was, fs, KeptBack(listing, stuck));
    }
  }

  /** Undisturbed, AtomicWrite is three steps of the store: create, append, then publish or abort. */
  lemma AtomicWriteIsSteps(units: set<Unit>, s: Store, file: nat, writer: Writer, trouble: Trouble)
    returns (steps: seq<Action>, t: Store)
    requires writer.unit in units && writer.source in s.scratch && file !in s.fs.data && file !in s.writers
    ensures Run(units, s, steps, t)
    ensures t == s.(fs := AfterWrite(s.fs, file, EntryOf(writer.unit), s.scratch[writer.source], trouble))
  {
    hide EntryOf;
    var content := s.scratch[writer.source];
    var n := if trouble.CopyStops? then Min(trouble.after, |content|) else |content|;
    var last := if n < |content| || trouble.RenameFails? then Abort(file) else Publish(file);
    var s1 := Apply(units, s, Create(file, writer));
    var s2 := Apply(units, s1, Append(file, n));
    assert s1.fs.data[file] + content[0..n] == content[..n];
    assert s.fs.data[file := []][file := content[..n]] == s.fs.data[file := content[..n]];
    assert content[..|content|] == content;
    assert s.fs.names[Temp(file) := file] - {Temp(file)} == s.fs.names - {Temp(file)};
    assert s.writers[file := writer] - {file} == s.writers;
    t := Apply(units, s2, last);
    steps := [Create(file, writer), Append(file, n), last];
    assert steps[1..] == [Append(file, n), last] && steps[1..][1..] == [last] && [last][1..] == [];
    assert Run(units, t, [], t) && Run(units, s2, [last], t) && Run(units, s1, [Append(file, n), last], t);
  }

  function KeptBack(listing: seq<Path>, stuck: set<Path>): seq<Path> {
    if listing == [] then []
    else
      var last := listing[|listing| - 1];
      KeptBack(listing[..|listing| - 1], stuck) + (if last in stuck then [last] else [])
  }

  /** The pages in the files of a listing. */
  function SizeOf(fs: Fs, listing: seq<Path>): nat {
    if listing == [] then 0
    else
      var last := listing[|listing| - 1];
      SizeOf(fs, listing[..|listing| - 1])
      + (if last in fs.names && fs.names[last] in fs.data then |fs.data[fs.names[last]]| else 0)
  }

  lemma SizeGrows(fs: Fs, listing: seq<Path>, p: Path)
    ensures SizeOf(fs, listing + [p]) == SizeOf(fs, listing) +
      (if p in fs.names && fs.names[p] in fs.data then |fs.data[fs.names[p]]| else 0)
  {
  }

  lemma KeptGrows(fs: Fs, listing: seq<Path>, stuck: set<Path>, p: Path)
    ensures KeptBack(listing + [p], stuck) == KeptBack(listing, stuck) + (if p in stuck then [p] else [])
    ensures SizeOf(fs, KeptBack(listing + [p], stuck)) == SizeOf(fs, KeptBack(listing, stuck)) +
      (if p in stuck && p in fs.names && fs.names[p] in fs.data then |fs.data[fs.names[p]]| else 0)
  {
    assert (listing + [p])[..|listing|] == listing;
    SizeGrows(fs, KeptBack(listing, stuck), p);
    assert KeptBack(listing, stuck) + [] == KeptBack(listing, stuck);
  }

  lemma NothingToClear(fs: Fs, stuck: set<Path>)
    ensures SizeOf(fs, []) == 0 && KeptBack([], stuck) == []
  {
  }

  lemma {:induction false} KeptAreStuck(listing: seq<Path>, stuck: set<Path>)
    ensures forall p <- KeptBack(listing, stuck) :: p in listing && p in stuck
  {
    if listing != [] {
      KeptAreStuck(listing[..|listing| - 1], stuck);
    }
  }

  lemma {:induction false} SizeFrame(a: Fs, b: Fs, listing: seq<Path>)
    requires b.data == a.data
    requires forall p <- listing :: p in a.names && p in b.names && a.names[p] == b.names[p]
    ensures SizeOf(a, listing) == SizeOf(b, listing)
  {
    if listing != [] {
      SizeFrame(a, b, listing[..|listing| - 1]);
    }
  }
}
