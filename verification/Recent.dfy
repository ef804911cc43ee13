/**
 The ring of recent conversions and its pages: a walk along next_cursor over a fixed snapshot, and
 over snapshots that change between pages.
 */
module Recent {
  import opened Basics

  datatype Record = Record(requestID: string, completionTS: real, source: string, status: string)

  /** The last entry of the page before; its encoding is reversible. */
  datatype Cursor = Cursor(ts: real, id: string)

  datatype Page = Page(entries: seq<Record>, nextCursor: Option<Cursor>, hasMore: bool, stale: bool, bufferSize: nat)

  function Key(r: Record): Cursor {
    Cursor(r.completionTS, r.requestID)
  }

  // ---------------------------------------------------------------- the order of keys

  predicate LessText(a: string, b: string) {
    b != "" && (a == "" || a[0] < b[0] || (a[0] == b[0] && LessText(a[1..], b[1..])))
  }

  /** By time, then by identifier. */
  predicate Less(a: Cursor, b: Cursor) {
    if a.ts != b.ts then a.ts < b.ts else LessText(a.id, b.id)
  }

  lemma {:induction false} TextOrder(a: string, b: string, c: string)
    ensures !LessText(a, a)
    ensures LessText(a, b) && LessText(b, c) ==> LessText(a, c)
    ensures a == b || LessText(a, b) || LessText(b, a)
  {
    if a != "" && b != "" {
      TextOrder(a[1..], b[1..], if c == "" then "" else c[1..]);
      assert a == [a[0]] + a[1..] && b == [b[0]] + b[1..];
    } else if a != "" {
      TextOrder(a[1..], "", "");
    }
  }

  /** A strict total order. */
  lemma KeyOrder(a: Cursor, b: Cursor, c: Cursor)
    ensures !Less(a, a)
    ensures Less(a, b) && Less(b, c) ==> Less(a, c)
    ensures a == b || Less(a, b) || Less(b, a)
    ensures !(Less(a, b) && Less(b, a))
  {
    TextOrder(a.id, b.id, c.id);
    TextOrder(a.id, b.id, a.id);
  }

  /** Newest first, no two alike. */
  ghost predicate Descending(items: seq<Record>) {
    forall i, j :: 0 <= i < j < |items| ==> Less(Key(items[j]), Key(items[i]))
  }

  // ---------------------------------------------------------------- selecting and paging

  datatype Test = Matching(filter: string) | Before(cursor: Cursor)

  function Matches(r: Record, filter: string): bool {
    if filter == "all" then true
    else if filter == "ui" then r.source == "ui"
    else if filter == "cross" then r.source == "cross"
    else filter == "failed" && r.status == "failed"
  }

  predicate Passes(r: Record, test: Test) {
    match test
    case Matching(filter) => Matches(r, filter)
    case Before(cursor) => Less(Key(r), cursor)
  }

  function Select(items: seq<Record>, test: Test): (s: seq<Record>)
    ensures |s| <= |items|
    ensures forall r :: r in s <==> r in items && Passes(r, test)
  {
    if items == [] then []
    else
      var last := items[|items| - 1];
      Select(items[..|items| - 1], test) + (if Passes(last, test) then [last] else [])
  }

  predicate Present(items: seq<Record>, cursor: Cursor) {
    exists i :: 0 <= i < |items| && Key(items[i]) == cursor
  }

  function MakePage(items: seq<Record>, limit: nat, bufferSize: nat, stale: bool): Page {
    var entries := items[..Min(limit, |items|)];
    var hasMore := |items| > limit;
    Page(entries, if hasMore && entries != [] then Some(Key(entries[|entries| - 1])) else None, hasMore, stale, bufferSize)
  }

  /** The records a page is cut from. */
  function Remaining(items: seq<Record>, cursor: Option<Cursor>): seq<Record> {
    if cursor.Some? && Present(items, cursor.value) then Select(items, Before(cursor.value)) else items
  }

  function PageOf(items: seq<Record>, cursor: Option<Cursor>, limit: nat, bufferSize: nat): Page {
    MakePage(Remaining(items, cursor), limit, bufferSize, cursor.Some? && !Present(items, cursor.value))
  }

  method Paginate(items: seq<Record>, cursor: Option<Cursor>, limit: nat, bufferSize: nat) returns (page: Page)
    ensures page == PageOf(items, cursor, limit, bufferSize)
  {
    if cursor.None? {
      return MakePage(items, limit, bufferSize, false);
    }
    var anchorPresent := false;
    for i := 0 to |items|
      invariant !anchorPresent
      invariant forall j :: 0 <= j < i ==> Key(items[j]) != cursor.value
    {
      if items[i].completionTS == cursor.value.ts && items[i].requestID == cursor.value.id {
        anchorPresent := true;
        assert Key(items[i]) == cursor.value;
        break;
      }
    }
    if !anchorPresent {
      return MakePage(items, limit, bufferSize, true);
    }
    var filtered := [];
    for i := 0 to |items|
      invariant filtered == Select(items[..i], Before(cursor.value))
    {
      if Less(Key(items[i]), cursor.value) {
        filtered := filtered + [items[i]];
      }
      assert items[..i + 1][..i] == items[..i];
    }
    assert items[..|items|] == items;
    page := MakePage(filtered, limit, bufferSize, false);
  }

  class RecentStore {
    var buf: seq<Record>
    const maxlen: nat

    constructor (maxlen: nat)
      ensures buf == [] && this.maxlen == maxlen
    {
      buf, this.maxlen := [], maxlen;
    }

    /** Puts the record in front and lets the oldest go. */
    method Record(rec: Record)
      modifies this
      ensures buf == Recorded(old(buf), [rec], maxlen)
    {
      buf := [rec] + buf;
      if |buf| > maxlen {
        buf := buf[..maxlen];
      }
    }

    /**
     The listing: an unknown filter means all, the limit is kept between 1 and 100. sizeLater is
     the size when the lock is taken a second time; other requests may have put records in by then.
     */
    method ListConversions(filter: string, cursor: Option<Cursor>, limit: int, sizeLater: nat) returns (page: Page)
      ensures page == PageOf(Select(buf, Matching(KnownFilter(filter))), cursor, Clamp(limit), sizeLater)
      ensures |page.entries| <= 100 && page.bufferSize == sizeLater
      ensures forall r <- page.entries :: r in buf && Asked(r, filter)
    {
      var n := limit;
      if n < 1 {
        n := 1;
      } else if n > 100 {
        n := 100;
      }
      var flt := filter;
      if flt != "all" && flt != "ui" && flt != "cross" && flt != "failed" {
        flt := "all";
      }
      PageIsAsked(buf, filter, cursor, limit, sizeLater);
      hide Select, MakePage, Remaining, Asked, Present;
      var filtered := Listing(buf, flt);
      page := Paginate(filtered, cursor, n, sizeLater);
    }
  }

  method Listing(snap: seq<Record>, filter: string) returns (filtered: seq<Record>)
    ensures filtered == Select(snap, Matching(filter))
  {
    filtered := [];
    for i := 0 to |snap|
      invariant filtered == Select(snap[..i], Matching(filter))
    {
      if Matches(snap[i], filter) {
        filtered := filtered + [snap[i]];
      }
      assert snap[..i + 1][..i] == snap[..i];
    }
    assert snap[..|snap|] == snap;
  }

  function KnownFilter(filter: string): string {
    if filter == "ui" || filter == "cross" || filter == "failed" then filter else "all"
  }

  /** What the four filters ask for; any other asks for everything. */
  predicate Asked(r: Record, filter: string) {
    && (filter == "ui" ==> r.source == "ui")
    && (filter == "cross" ==> r.source == "cross")
    && (filter == "failed" ==> r.status == "failed")
  }

  /** The listing has exactly the records asked for. */
  lemma ListedIsAsked(buf: seq<Record>, filter: string, r: Record)
    ensures r in Select(buf, Matching(KnownFilter(filter))) <==> r in buf && Asked(r, filter)
  {
    assert "ui" != "cross" && "ui" != "failed" && "ui" != "all" && "cross" != "failed" && "cross" != "all" && "failed" != "all";
  }

  lemma PageIsAsked(buf: seq<Record>, filter: string, cursor: Option<Cursor>, limit: int, size: nat)
    ensures var page := PageOf(Select(buf, Matching(KnownFilter(filter))), cursor, Clamp(limit), size);
      |page.entries| <= 100 && page.bufferSize == size && forall r <- page.entries :: r in buf && Asked(r, filter)
  {
    hide Select, Asked, KnownFilter;
    var listed := Select(buf, Matching(KnownFilter(filter)));
    var page := PageOf(listed, cursor, Clamp(limit), size);
    forall r | r in page.entries ensures r in buf && Asked(r, filter) {
      assert r in Remaining(listed, cursor);
      ListedIsAsked(buf, filter, r);
    }
  }

  function Clamp(limit: int): (n: nat)
    ensures 1 <= n <= 100 && (1 <= limit <= 100 ==> n == limit) && (limit < 1 ==> n == 1) && (limit > 100 ==> n == 100)
  {
    Max(1, Min(limit, 100))
  }

  /** The buffer after some more records, newest first. */
  function Recorded(buf: seq<Record>, news: seq<Record>, maxlen: nat): seq<Record> {
    (news + buf)[..Min(maxlen, |news| + |buf|)]
  }

  // ---------------------------------------------------------------- what selecting keeps

  lemma SelectLast(items: seq<Record>, test: Test)
    requires items != []
    ensures var front, last := items[..|items| - 1], items[|items| - 1];
      Select(items, test) == if Passes(last, test) then Select(front, test) + [last] else Select(front, test)
  {
  }

  lemma SelectFromNone(test: Test)
    ensures Select([], test) == []
  {
  }

  lemma {:induction false} SelectDescends(items: seq<Record>, test: Test)
    requires Descending(items)
    ensures Descending(Select(items, test))
  {
    if items != [] {
      var front := items[..|items| - 1];
      SelectDescends(front, test);
      var s := Select(front, test);
      forall i | 0 <= i < |s| ensures Less(Key(items[|items| - 1]), Key(s[i])) {
        assert s[i] in front;
      }
    }
  }

  /** What is older than a record is older than whatever that record is older than. */
  lemma {:induction false} SelectTwice(items: seq<Record>, c: Cursor, d: Cursor)
    requires Less(d, c)
    ensures Select(items, Before(d)) == Select(Select(items, Before(c)), Before(d))
  {
    if items != [] {
      var front, last := items[..|items| - 1], items[|items| - 1];
      SelectTwice(front, c, d);
      KeyOrder(Key(last), d, c);
      var s := Select(front, Before(c));
      if Less(Key(last), c) {
        assert (s + [last])[..|s|] == s;
      } else {
        assert s + [] == s;
      }
    }
  }

  lemma {:induction false} SelectDrops(items: seq<Record>, test: Test, r: Record)
    requires r in items && !Passes(r, test)
    ensures |Select(items, test)| < |items|
  {
    var front, last := items[..|items| - 1], items[|items| - 1];
    if r != last {
      assert r in front;
      SelectDrops(front, test, r);
    }
  }

  // ---------------------------------------------------------------- a walk over one snapshot

  /** Grows smaller from page to page. */
  function Left(items: seq<Record>, cursor: Option<Cursor>): nat {
    if cursor.Some? && Present(items, cursor.value) then |Select(items, Before(cursor.value))| else |items| + 1
  }

  lemma NextCursorIsOlder(items: seq<Record>, cursor: Option<Cursor>, limit: nat)
    requires PageOf(items, cursor, limit, 0).nextCursor.Some?
    ensures var next := PageOf(items, cursor, limit, 0).nextCursor.value;
      && Present(items, next)
      && (cursor.Some? && Present(items, cursor.value) ==> Less(next, cursor.value))
      && Left(items, Some(next)) < Left(items, cursor)
      && Select(items, Before(next)) == Select(Remaining(items, cursor), Before(next))
  {
    hide Select, Present, Less;
    var rest := Remaining(items, cursor);
    var entries := PageOf(items, cursor, limit, 0).entries;
    var last := entries[|entries| - 1];
    InRemaining(items, cursor, last);
    if cursor.Some? && Present(items, cursor.value) {
      SelectTwice(items, cursor.value, Key(last));
      KeyOrder(Key(last), Key(last), Key(last));
      SelectDrops(rest, Before(Key(last)), last);
    }
  }

  lemma InRemaining(items: seq<Record>, cursor: Option<Cursor>, r: Record)
    requires r in Remaining(items, cursor)
    ensures r in items && Present(items, Key(r))
    ensures cursor.Some? && Present(items, cursor.value) ==> Less(Key(r), cursor.value)
  {
  }

  /** All the entries seen when following next_cursor from page to page. */
  function Walk(items: seq<Record>, cursor: Option<Cursor>, limit: nat): seq<Record>
    decreases Left(items, cursor)
  {
    var page := PageOf(items, cursor, limit, 0);
    if page.nextCursor.None? then page.entries
    else
      NextCursorIsOlder(items, cursor, limit);
      page.entries + Walk(items, page.nextCursor, limit)
  }

  /** In a descending list, what is older than an entry is what stands behind it. */
  lemma {:induction false} BehindIsOlder(items: seq<Record>, i: nat)
    requires Descending(items) && i < |items|
    ensures Select(items, Before(Key(items[i]))) == items[i + 1..]
  {
    hide Less, Select;
    var n := |items|;
    SelectLast(items, Before(Key(items[i])));
    var front, last := items[..n - 1], items[n - 1];
    KeyOrder(Key(last), Key(items[i]), Key(last));
    if i < n - 1 {
      BehindIsOlder(front, i);
      assert front[i + 1..] + [last] == items[i + 1..];
    } else {
      NothingOlder(front, Key(last));
      assert items[i + 1..] == [];
    }
  }

  lemma {:induction false} NothingOlder(items: seq<Record>, c: Cursor)
    requires forall r <- items :: Less(c, Key(r))
    ensures Select(items, Before(c)) == []
  {
    if items != [] {
      var last := items[|items| - 1];
      KeyOrder(c, Key(last), c);
      NothingOlder(items[..|items| - 1], c);
    }
  }

  /** Over a descending snapshot the walk sees what was left to see, in order. */
  lemma {:induction false} WalkSeesRest(items: seq<Record>, cursor: Option<Cursor>, limit: nat)
    requires Descending(items) && limit >= 1
    ensures Walk(items, cursor, limit) == Remaining(items, cursor)
    decreases Left(items, cursor)
  {
    hide Select, Present, Descending;
    var rest := Remaining(items, cursor);
    var page := PageOf(items, cursor, limit, 0);
    if page.nextCursor.Some? {
      NextCursorIsOlder(items, cursor, limit);
      WalkSeesRest(items, page.nextCursor, limit);
      RemainingDescends(items, cursor);
      BehindIsOlder(rest, limit - 1);
      assert rest[..limit] + rest[limit..] == rest;
    }
  }

  lemma RemainingDescends(items: seq<Record>, cursor: Option<Cursor>)
    requires Descending(items)
    ensures Descending(Remaining(items, cursor))
  {
    if cursor.Some? {
      SelectDescends(items, Before(cursor.value));
    }
  }

  /** Whatever the snapshot, a walk in pages of one entry sees only what was left. */
  lemma {:induction false} OneByOneSeesLeft(items: seq<Record>, cursor: Option<Cursor>)
    ensures forall r <- Walk(items, cursor, 1) :: r in Remaining(items, cursor)
    decreases Left(items, cursor)
  {
    var page := PageOf(items, cursor, 1, 0);
    if page.nextCursor.Some? {
      NextCursorIsOlder(items, cursor, 1);
      OneByOneSeesLeft(items, page.nextCursor);
    }
  }

  /** Following next_cursor over a descending snapshot sees each record exactly once, newest first, for every limit. */
  lemma WalkSeesEachOnce(items: seq<Record>, limit: nat)
    requires Descending(items) && limit >= 1
    ensures Walk(items, None, limit) == items
  {
    WalkSeesRest(items, None, limit);
  }

  lemma {:induction false} SelectTail(items: seq<Record>, test: Test)
    requires items != [] && !Passes(items[0], test)
    requires forall i :: 0 < i < |items| ==> Passes(items[i], test)
    ensures Select(items, test) == items[1..]
  {
    hide Passes, Select;
    var front, last := items[..|items| - 1], items[|items| - 1];
    SelectLast(items, test);
    SelectFromNone(test);
    if front == [] {
      assert items[1..] == [];
    } else {
      SelectTail(front, test);
      assert front[1..] + [last] == items[1..];
    }
  }

  lemma ConsDescends(items: seq<Record>)
    requires items != [] && Descending(items[1..])
    requires forall i :: 0 < i < |items| ==> Less(Key(items[i]), Key(items[0]))
    ensures Descending(items)
  {
  }

  /** Only a descending list is seen whole in pages of one entry. */
  lemma {:induction false} SeenWholeMeansDescending(items: seq<Record>, cursor: Option<Cursor>)
    requires multiset(Walk(items, cursor, 1)) == multiset(Remaining(items, cursor))
    ensures Descending(Remaining(items, cursor))
    decreases Left(items, cursor)
  {
    hide Select, Present, Less, Descending;
    var rest := Remaining(items, cursor);
    var page := PageOf(items, cursor, 1, 0);
    if page.nextCursor.None? {
      ShortDescends(rest);
    } else {
      var next := page.nextCursor.value;
      NextCursorIsOlder(items, cursor, 1);
      OneByOneSeesLeft(items, page.nextCursor);
      var others := Walk(items, page.nextCursor, 1);
      assert rest == [rest[0]] + rest[1..] && Walk(items, cursor, 1) == [rest[0]] + others;
      SameTail(rest[0], others, rest[1..]);
      forall i | 0 < i < |rest| ensures Less(Key(rest[i]), next) {
        assert rest[1..][i - 1] in multiset(rest[1..]);
        assert rest[i] in others;
        InRemaining(items, page.nextCursor, rest[i]);
      }
      KeyOrder(next, next, next);
      SelectTail(rest, Before(next));
      SeenWholeMeansDescending(items, page.nextCursor);
      ConsDescends(rest);
    }
  }

  lemma SameTail<T>(x: T, a: seq<T>, b: seq<T>)
    requires multiset([x] + a) == multiset([x] + b)
    ensures multiset(a) == multiset(b)
  {
    assert multiset([x] + a) == multiset{x} + multiset(a);
    assert multiset([x] + b) == multiset{x} + multiset(b);
    assert multiset(a) == multiset{x} + multiset(a) - multiset{x};
    assert multiset(b) == multiset{x} + multiset(b) - multiset{x};
  }

  lemma ShortDescends(items: seq<Record>)
    requires |items| <= 1
    ensures Descending(items)
  {
  }

  ghost predicate SeenWhole(items: seq<Record>, limit: nat) {
    multiset(Walk(items, None, limit)) == multiset(items)
  }

  /** A snapshot is seen whole, for every limit, if and only if it is strictly descending in (time, id). */
  lemma SeenWholeIffDescending(items: seq<Record>)
    ensures Descending(items) <==> forall limit: nat :: limit >= 1 ==> SeenWhole(items, limit)
  {
    if Descending(items) {
      forall limit: nat | limit >= 1 ensures SeenWhole(items, limit) {
        WalkSeesEachOnce(items, limit);
      }
    }
    if SeenWhole(items, 1) {
      SeenWholeMeansDescending(items, None);
    }
  }

  // ---------------------------------------------------------------- a walk while records come and go

  /** From one snapshot to the next: newer records in front, the oldest gone. */
  ghost predicate Evolves(maxlen: nat, s: seq<Record>, t: seq<Record>, news: seq<Record>) {
    Descending(news + s) && |s| <= maxlen && t == Recorded(s, news, maxlen)
  }

  /**
   The pages a client has asked for, each with the snapshot it was cut from, the records that came
   before that, and the buffer's size, read somewhat later.
   */
  datatype Browse = Browse(
    maxlen: nat, filter: string, news: seq<seq<Record>>, snaps: seq<seq<Record>>, sizes: seq<nat>, limits: seq<nat>, pages: seq<Page>)

  function Listed(b: Browse, k: nat): seq<Record>
    requires k < |b.snaps|
  {
    Select(b.snaps[k], Matching(b.filter))
  }

  function CursorFor(b: Browse, k: nat): Option<Cursor>
    requires k <= |b.pages|
  {
    if k == 0 then None else b.pages[k - 1].nextCursor
  }

  /** Page k is cut from snapshot k at the cursor that the page before gave out. */
  ghost predicate PageCut(b: Browse, k: nat)
    requires k < |b.news| == |b.snaps| == |b.sizes| == |b.limits| == |b.pages|
  {
    && (if k == 0 then Descending(b.snaps[0]) && |b.snaps[0]| <= b.maxlen
        else Evolves(b.maxlen, b.snaps[k - 1], b.snaps[k], b.news[k]) && CursorFor(b, k).Some?)
    && b.limits[k] >= 1
    && b.pages[k] == PageOf(Listed(b, k), CursorFor(b, k), b.limits[k], b.sizes[k])
  }

  ghost predicate Valid(b: Browse) {
    && |b.news| == |b.snaps| == |b.sizes| == |b.limits| == |b.pages|
    && forall k :: 0 <= k < |b.pages| ==> PageCut(b, k)
  }

  lemma SnapDescends(b: Browse, k: nat)
    requires Valid(b) && k < |b.snaps|
    ensures Descending(b.snaps[k]) && |b.snaps[k]| <= b.maxlen && Descending(Listed(b, k))
  {
    hide Less;
    assert PageCut(b, k);
    SelectDescends(b.snaps[k], Matching(b.filter));
  }

  /** Eviction takes the oldest: where an older record survives, so does a newer one. */
  lemma OlderSurvivesNewer(maxlen: nat, s: seq<Record>, t: seq<Record>, news: seq<Record>, a: Record, r: Record)
    requires Evolves(maxlen, s, t, news) && a in s && r in t
    requires Key(r) == Key(a) || Less(Key(r), Key(a))
    ensures a in t && r in s
  {
    hide Less;
    var all := news + s;
    var j :| 0 <= j < |s| && s[j] == a;
    var i :| 0 <= i < |t| && t[i] == r;
    assert all[|news| + j] == a && all[i] == r;
    KeyOrder(Key(r), Key(a), Key(r));
    KeyOrder(Key(a), Key(a), Key(a));
    assert i >= |news| + j;
    assert t[|news| + j] == a && s[i - |news|] == r;
  }

  /** The anchor of a cursor was listed on the page before. */
  lemma AnchorWasListed(b: Browse, k: nat) returns (a: Record)
    requires Valid(b) && 0 < k < |b.pages|
    ensures a in b.snaps[k - 1] && Matches(a, b.filter) && Some(Key(a)) == CursorFor(b, k)
  {
    hide Less, Present, Evolves, Descending, Select;
    assert PageCut(b, k) && PageCut(b, k - 1);
    var listed := Listed(b, k - 1);
    var entries := b.pages[k - 1].entries;
    a := entries[|entries| - 1];
    assert a in Remaining(listed, CursorFor(b, k - 1));
    InRemaining(listed, CursorFor(b, k - 1), a);
  }

  lemma IsPresent(items: seq<Record>, r: Record)
    requires r in items
    ensures Present(items, Key(r))
  {
  }

  /** A cursor is stale if and only if neither its anchor nor anything older than it survives. */
  lemma StaleIffNothingOlder(b: Browse, k: nat)
    requires Valid(b) && 0 < k < |b.pages|
    ensures CursorFor(b, k).Some?
    ensures b.pages[k].stale <==> forall r <- b.snaps[k] :: Less(CursorFor(b, k).value, Key(r))
  {
    hide Less, Evolves;
    assert PageCut(b, k);
    var a := AnchorWasListed(b, k);
    var listed := Listed(b, k);
    if Present(listed, Key(a)) {
      var i :| 0 <= i < |listed| && Key(listed[i]) == Key(a);
      assert listed[i] in b.snaps[k];
      KeyOrder(Key(a), Key(a), Key(a));
    } else {
      forall r | r in b.snaps[k] ensures Less(Key(a), Key(r)) {
        KeyOrder(Key(a), Key(r), Key(a));
        if !Less(Key(a), Key(r)) {
          OlderSurvivesNewer(b.maxlen, b.snaps[k - 1], b.snaps[k], b.news[k], a, r);
          IsPresent(listed, a);
        }
      }
    }
  }

  // ---------------------------------------------------------------- no record twice, no survivor missed

  /** Everything shown on the first n pages. */
  function Shown(b: Browse, n: nat): seq<Record>
    requires n <= |b.pages|
  {
    if n == 0 then [] else Shown(b, n - 1) + b.pages[n - 1].entries
  }

  ghost predicate NeverStale(b: Browse) {
    forall k :: 0 <= k < |b.pages| ==> !b.pages[k].stale
  }

  lemma PageDescends(b: Browse, k: nat)
    requires Valid(b) && NeverStale(b) && k < |b.pages|
    ensures Descending(b.pages[k].entries)
    ensures CursorFor(b, k).Some? ==> forall r <- b.pages[k].entries :: Less(Key(r), CursorFor(b, k).value)
    ensures b.pages[k].nextCursor.Some? ==>
      var entries := b.pages[k].entries; entries != [] && b.pages[k].nextCursor == Some(Key(entries[|entries| - 1]))
  {
    hide Less, Present, Evolves;
    assert PageCut(b, k);
    SnapDescends(b, k);
    var listed, cursor := Listed(b, k), CursorFor(b, k);
    RemainingDescends(listed, cursor);
    forall r | r in b.pages[k].entries && cursor.Some? ensures Less(Key(r), cursor.value) {
      assert r in Remaining(listed, cursor);
      InRemaining(listed, cursor, r);
    }
  }

  lemma AppendDescends(a: seq<Record>, b: seq<Record>)
    requires Descending(a) && Descending(b)
    requires a != [] ==> forall r <- b :: Less(Key(r), Key(a[|a| - 1]))
    ensures Descending(a + b)
  {
    hide Less;
    var s := a + b;
    forall i, j | 0 <= i < j < |s| ensures Less(Key(s[j]), Key(s[i])) {
      if i < |a| <= j {
        assert s[j] in b;
        KeyOrder(Key(s[j]), Key(a[|a| - 1]), Key(s[i]));
      }
    }
  }

  lemma CutFresh(b: Browse, k: nat)
    requires Valid(b) && NeverStale(b) && k < |b.pages|
    ensures k > 0 ==> CursorFor(b, k).Some? && Present(Listed(b, k), CursorFor(b, k).value)
    ensures k > 0 ==> Evolves(b.maxlen, b.snaps[k - 1], b.snaps[k], b.news[k])
    ensures b.limits[k] >= 1 && b.pages[k] == PageOf(Listed(b, k), CursorFor(b, k), b.limits[k], b.sizes[k])
  {
    hide Evolves, Present, Select;
    assert PageCut(b, k) && !b.pages[k].stale;
  }

  lemma ShownEndsAtCursor(b: Browse, n: nat)
    requires Valid(b) && NeverStale(b) && 0 < n <= |b.pages| && b.pages[n - 1].nextCursor.Some?
    ensures Shown(b, n) != [] && b.pages[n - 1].nextCursor == Some(Key(Shown(b, n)[|Shown(b, n)| - 1]))
  {
    hide Less, Evolves, Present, Descending, PageCut, NeverStale;
    PageDescends(b, n - 1);
  }

  /** What is shown is ever older, over all pages: no record is shown twice. */
  lemma {:induction false} NothingShownTwice(b: Browse, n: nat)
    requires Valid(b) && NeverStale(b) && n <= |b.pages|
    ensures Descending(Shown(b, n))
    ensures 0 < n < |b.pages| ==> Shown(b, n) != [] && CursorFor(b, n) == Some(Key(Shown(b, n)[|Shown(b, n)| - 1]))
  {
    hide Less, Evolves, Descending, Present, PageCut, NeverStale;
    if n == 0 {
      ShortDescends(Shown(b, 0));
    } else {
      NothingShownTwice(b, n - 1);
      PageDescends(b, n - 1);
      CutFresh(b, n - 1);
      AppendDescends(Shown(b, n - 1), b.pages[n - 1].entries);
      if n < |b.pages| {
        CutFresh(b, n);
        ShownEndsAtCursor(b, n);
      }
    }
  }

  /** The record has been evicted: what is left, if anything, is newer. */
  ghost predicate Gone(s: seq<Record>, r: Record) {
    s != [] && forall x <- s :: Less(Key(r), Key(x))
  }

  lemma GoneStays(maxlen: nat, s: seq<Record>, t: seq<Record>, news: seq<Record>, r: Record)
    requires Evolves(maxlen, s, t, news) && (r in s || Gone(s, r))
    ensures r in t || Gone(t, r)
    ensures Gone(s, r) ==> Gone(t, r)
  {
    hide Less;
    var all := news + s;
    forall x | x in t ensures r in t || Less(Key(r), Key(x)) {
      var i :| 0 <= i < |t| && t[i] == x;
      assert all[i] == x;
      if Gone(s, r) {
        if i < |news| {
          assert Less(Key(all[|news|]), Key(all[i]));
          KeyOrder(Key(r), Key(s[0]), Key(x));
        }
      } else {
        var j :| 0 <= j < |s| && s[j] == r;
        if |news| + j < |t| {
          assert t[|news| + j] == r;
        } else {
          assert Less(Key(all[|news| + j]), Key(all[i]));
        }
      }
    }
    if Gone(s, r) {
      forall x | x in t ensures Less(Key(r), Key(x)) {
        var i :| 0 <= i < |t| && t[i] == x;
        assert all[i] == x;
        if i < |news| {
          assert Less(Key(all[|news|]), Key(all[i]));
          KeyOrder(Key(r), Key(s[0]), Key(x));
        }
      }
    }
  }

  lemma {:induction false} ThereOrGone(b: Browse, r: Record, from: nat, k: nat)
    requires Valid(b) && from <= k < |b.snaps| && (r in b.snaps[from] || Gone(b.snaps[from], r))
    ensures r in b.snaps[k] || Gone(b.snaps[k], r)
    ensures Gone(b.snaps[from], r) ==> Gone(b.snaps[k], r)
    decreases k
  {
    hide Gone, Evolves;
    if k > from {
      ThereOrGone(b, r, from, k - 1);
      assert PageCut(b, k);
      GoneStays(b.maxlen, b.snaps[k - 1], b.snaps[k], b.news[k], r);
    }
  }

  /** A record in the first and in the last snapshot is in all of them. */
  lemma ThereThroughout(b: Browse, r: Record, k: nat)
    requires Valid(b) && k < |b.snaps| && r in b.snaps[0] && r in b.snaps[|b.snaps| - 1]
    ensures r in b.snaps[k]
  {
    hide Valid, Less;
    ThereOrGone(b, r, 0, k);
    if Gone(b.snaps[k], r) {
      ThereOrGone(b, r, k, |b.snaps| - 1);
      KeyOrder(Key(r), Key(r), Key(r));
    }
  }

  lemma CutShowsOrGoesOn(items: seq<Record>, limit: nat, bufferSize: nat, stale: bool, r: Record)
    requires Descending(items) && limit >= 1 && r in items
    ensures var page := MakePage(items, limit, bufferSize, stale);
      r in page.entries || (page.nextCursor.Some? && Less(Key(r), page.nextCursor.value))
  {
  }

  lemma {:induction false} ShownOrStillAhead(b: Browse, r: Record, n: nat)
    requires Valid(b) && NeverStale(b) && 0 < n <= |b.pages|
    requires Matches(r, b.filter) && r in b.snaps[0] && r in b.snaps[|b.snaps| - 1]
    ensures r in Shown(b, n) || (b.pages[n - 1].nextCursor.Some? && Less(Key(r), b.pages[n - 1].nextCursor.value))
  {
    hide Less, Evolves, Present, Descending;
    var k := n - 1;
    assert PageCut(b, k) && !b.pages[k].stale;
    if k > 0 {
      ShownOrStillAhead(b, r, k);
    }
    if r !in Shown(b, k) {
      ThereThroughout(b, r, k);
      SnapDescends(b, k);
      RemainingDescends(Listed(b, k), CursorFor(b, k));
      assert r in Remaining(Listed(b, k), CursorFor(b, k));
      CutShowsOrGoesOn(Remaining(Listed(b, k), CursorFor(b, k)), b.limits[k], b.sizes[k], b.pages[k].stale, r);
    }
  }

  /**
   While newer records arrive and old ones go, a walk whose cursors never go stale shows, once it
   reaches a last page, every matching record that was there at the start and is still there.
   */
  lemma NoSurvivorMissed(b: Browse, r: Record)
    requires Valid(b) && NeverStale(b) && |b.pages| > 0 && !b.pages[|b.pages| - 1].hasMore
    requires Matches(r, b.filter) && r in b.snaps[0] && r in b.snaps[|b.snaps| - 1]
    ensures r in Shown(b, |b.pages|)
  {
    hide Less, Select, Present, Evolves, Descending, Shown, Matches;
    ShownOrStillAhead(b, r, |b.pages|);
    assert PageCut(b, |b.pages| - 1);
  }

  // ---------------------------------------------------------------- a walk ends

  /** What a page is cut from was behind the cursor one page earlier: newer records come in front. */
  lemma RemainingOneBack(b: Browse, k: nat, r: Record)
    requires Valid(b) && NeverStale(b) && 0 < k < |b.pages| && r in Remaining(Listed(b, k), CursorFor(b, k))
    ensures r in Remaining(Listed(b, k - 1), CursorFor(b, k - 1))
  {
    hide Less, Evolves, Descending, Select, Matches, PageCut;
    CutFresh(b, k);
    CutFresh(b, k - 1);
    var a := AnchorWasListed(b, k);
    InRemaining(Listed(b, k), CursorFor(b, k), r);
    OlderSurvivesNewer(b.maxlen, b.snaps[k - 1], b.snaps[k], b.news[k], a, r);
    if k > 1 {
      AnchorIsOlder(b, k, a);
      KeyOrder(Key(r), Key(a), CursorFor(b, k - 1).value);
    }
  }

  lemma AnchorIsOlder(b: Browse, k: nat, a: Record)
    requires Valid(b) && NeverStale(b) && 1 < k < |b.pages| && Some(Key(a)) == CursorFor(b, k)
    ensures CursorFor(b, k - 1).Some? && Less(Key(a), CursorFor(b, k - 1).value)
  {
    hide Less, Evolves, Present, Select;
    assert PageCut(b, k - 1);
    PageDescends(b, k - 1);
  }

  /** So it was listed at the start. */
  lemma {:induction false} RemainingWasListed(b: Browse, k: nat, r: Record)
    requires Valid(b) && NeverStale(b) && k < |b.pages| && r in Remaining(Listed(b, k), CursorFor(b, k))
    ensures r in Listed(b, 0)
    decreases k
  {
    hide PageCut, NeverStale, Remaining, Listed;
    if k > 0 {
      RemainingOneBack(b, k, r);
      RemainingWasListed(b, k - 1, r);
    } else {
      FirstIsListed(b);
    }
  }

  lemma FirstIsListed(b: Browse)
    requires |b.snaps| > 0
    ensures Remaining(Listed(b, 0), CursorFor(b, 0)) == Listed(b, 0)
  {
  }

  lemma {:induction false} ShownWasListed(b: Browse, n: nat)
    requires Valid(b) && NeverStale(b) && n <= |b.pages|
    ensures forall r <- Shown(b, n) :: r in Listed(b, 0)
    ensures n > 0 && b.pages[n - 1].nextCursor.Some? ==> |Shown(b, n)| >= n
  {
    hide Less, Evolves, Descending, Present;
    if n > 0 {
      ShownWasListed(b, n - 1);
      assert PageCut(b, n - 1);
      PageDescends(b, n - 1);
      forall r | r in b.pages[n - 1].entries ensures r in Listed(b, 0) {
        RemainingWasListed(b, n - 1, r);
      }
    }
  }

  /** No two records of a descending list are alike, so it is no longer than a list that has all of them. */
  lemma {:induction false} DescendingFitsIn(a: seq<Record>, all: seq<Record>)
    requires Descending(a) && forall r <- a :: r in all
    ensures |a| <= |all|
  {
    hide Less;
    if a != [] {
      var first := a[0];
      assert first in all;
      var i :| 0 <= i < |all| && all[i] == first;
      forall r | r in a[1..] ensures r in all[..i] + all[i + 1..] {
        KeyOrder(Key(r), Key(first), Key(r));
        assert r in a;
        var j :| 0 <= j < |all| && all[j] == r;
        assert j != i;
      }
      DescendingFitsIn(a[1..], all[..i] + all[i + 1..]);
    }
  }

  /** The record that begins the next page is older than all shown so far. */
  lemma NextIsOlder(b: Browse, n: nat) returns (next: Record)
    requires Valid(b) && NeverStale(b) && 0 < n <= |b.pages| && b.pages[n - 1].hasMore
    ensures next in Listed(b, 0) && b.pages[n - 1].nextCursor.Some?
    ensures Less(Key(next), b.pages[n - 1].nextCursor.value)
  {
    hide Less, Evolves, Present, Descending, Select, PageCut, NeverStale;
    var k := n - 1;
    CutFresh(b, k);
    var rest := Remaining(Listed(b, k), CursorFor(b, k));
    next := rest[b.limits[k]];
    RemainingWasListed(b, k, next);
    SnapDescends(b, k);
    RemainingDescends(Listed(b, k), CursorFor(b, k));
    DescendsAt(rest, b.limits[k] - 1, b.limits[k]);
  }

  /** While there is more to come, fewer pages have been shown than there were matching records at the start. */
  lemma GoesOnOnlyForUnseen(b: Browse, n: nat)
    requires Valid(b) && NeverStale(b) && 0 < n <= |b.pages| && b.pages[n - 1].hasMore
    ensures n < |Listed(b, 0)|
  {
    hide Less, Evolves, Present, Descending, PageCut, NeverStale, Listed, Shown;
    var next := NextIsOlder(b, n);
    NothingShownTwice(b, n);
    ShownWasListed(b, n);
    var shown := Shown(b, n);
    ShownEndsAtCursor(b, n);
    DescendsAlone(next);
    AppendDescends(shown, [next]);
    DescendingFitsIn(shown + [next], Listed(b, 0));
  }

  lemma DescendsAt(items: seq<Record>, i: nat, j: nat)
    requires Descending(items) && i < j < |items|
    ensures Less(Key(items[j]), Key(items[i]))
  {
  }

  lemma DescendsAlone(r: Record)
    ensures Descending([r])
  {
  }

  /**
   A walk whose cursors never go stale ends, whatever comes in meanwhile: it has at most as many
   pages as there were matching records when it began, and one when there were none.
   */
  lemma WalkEnds(b: Browse)
    requires Valid(b) && NeverStale(b) && |b.pages| > 0
    ensures |b.pages| <= Max(1, |Listed(b, 0)|)
    ensures |b.pages| >= |Listed(b, 0)| ==> !b.pages[|b.pages| - 1].hasMore
  {
    hide Less, Evolves, Present, Descending, NeverStale;
    var n := |b.pages|;
    if b.pages[n - 1].hasMore {
      GoesOnOnlyForUnseen(b, n);
    }
    if n > 1 {
      assert PageCut(b, n - 1) && PageCut(b, n - 2);
      GoesOnOnlyForUnseen(b, n - 1);
    }
  }

  /** Records put in one after the other, newest in front, amount to one step between snapshots. */
  lemma RecordedJoin(buf: seq<Record>, first: seq<Record>, second: seq<Record>, maxlen: nat)
    ensures Recorded(Recorded(buf, first, maxlen), second, maxlen) == Recorded(buf, second + first, maxlen)
  {
  }
}
