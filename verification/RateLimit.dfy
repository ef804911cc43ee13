/**
 The per-client token bucket, kept for at most maxKeys clients in order of their last use: how it
 compares with a limiter that never forgets a client, and what it lets through.
 */
module RateLimit {
  import opened Basics

  datatype Config = Config(perMinute: int, burst: int, maxKeys: int) {
    /** What the constructor does not refuse. */
    predicate Ok() {
      perMinute >= 1 && burst >= 1 && maxKeys >= 1
    }

    function RefillPerSec(): (r: real)
      requires Ok()
      ensures r > 0.0
    {
      perMinute as real / 60.0
    }
  }

  datatype Bucket = Bucket(tokens: real, last: real)

  datatype Decision = Decision(allowed: bool, limit: int, remaining: int, retryAfterSeconds: int)

  // ---------------------------------------------------------------- one bucket

  lemma Scale(r: real, a: real, b: real)
    requires r > 0.0
    ensures a < b ==> a * r < b * r
    ensures a <= b ==> a * r <= b * r
  {
  }

  lemma Earned(r: real, seconds: real)
    requires r > 0.0 && seconds >= 0.0
    ensures seconds * r >= 0.0
  {
  }

  /** Tokens earned at the refill rate, up to the burst size. */
  function TopUp(cfg: Config, tokens: real, seconds: real): real
    requires cfg.Ok()
  {
    var more := tokens + seconds * cfg.RefillPerSec();
    if cfg.burst as real < more then cfg.burst as real else more
  }

  lemma TopUpStaysSane(cfg: Config, tokens: real, seconds: real)
    requires cfg.Ok() && tokens >= 0.0 && seconds >= 0.0
    ensures 0.0 <= TopUp(cfg, tokens, seconds) <= cfg.burst as real
  {
    hide Config.RefillPerSec;
    Earned(cfg.RefillPerSec(), seconds);
  }

  /** The tokens after refilling; a new client starts with a full bucket. */
  function Refilled(cfg: Config, b: Option<Bucket>, now: real): real
    requires cfg.Ok()
  {
    match b
    case None => cfg.burst as real
    case Some(b) => TopUp(cfg, b.tokens, now - b.last)
  }

  function Spent(cfg: Config, b: Option<Bucket>, now: real): Bucket
    requires cfg.Ok()
  {
    var tokens := Refilled(cfg, b, now);
    Bucket(if tokens >= 1.0 then tokens - 1.0 else tokens, now)
  }

  function Verdict(cfg: Config, b: Option<Bucket>, now: real): Decision
    requires cfg.Ok()
  {
    var allowed := Refilled(cfg, b, now) >= 1.0;
    var tokens := Spent(cfg, b, now).tokens;
    Decision(allowed, cfg.perMinute, tokens.Floor,
             if allowed then 0 else RetryAfter(cfg, tokens))
  }

  /** The time until a whole token is there, cut to whole seconds, plus one. */
  function RetryAfter(cfg: Config, tokens: real): int
    requires cfg.Ok()
  {
    Max(((1.0 - tokens) / cfg.RefillPerSec()).Floor + 1, 1)
  }

  ghost predicate Sane(cfg: Config, b: Bucket) {
    0.0 <= b.tokens <= cfg.burst as real
  }

  /** Tokens stay between zero and the burst size. */
  lemma SpentStaysSane(cfg: Config, b: Option<Bucket>, now: real)
    requires cfg.Ok()
    requires b.Some? ==> Sane(cfg, b.value) && b.value.last <= now
    ensures Sane(cfg, Spent(cfg, b, now))
    ensures Verdict(cfg, b, now).remaining >= 0
  {
    hide TopUp;
    if b.Some? {
      TopUpStaysSane(cfg, b.value.tokens, now - b.value.last);
    }
  }

  /** What is left counts the checks that would still be let through at the same instant. */
  lemma RemainingCountsDown(cfg: Config, b: Option<Bucket>, now: real)
    requires cfg.Ok()
    requires b.Some? ==> Sane(cfg, b.value) && b.value.last <= now
    ensures var d, next := Verdict(cfg, b, now), Verdict(cfg, Some(Spent(cfg, b, now)), now);
      && (next.allowed <==> d.remaining >= 1)
      && next.remaining == Max(d.remaining - 1, 0)
  {
    hide Config.RefillPerSec, RetryAfter;
    SpentStaysSane(cfg, b, now);
    var after := Spent(cfg, b, now);
    NoTimeNoTokens(cfg, after);
    assert after.last == now;
    assert (after.tokens - 1.0).Floor == after.tokens.Floor - 1;
  }

  lemma NoTimeNoTokens(cfg: Config, b: Bucket)
    requires cfg.Ok() && Sane(cfg, b)
    ensures Refilled(cfg, Some(b), b.last) == b.tokens
  {
    assert (b.last - b.last) * cfg.RefillPerSec() == 0.0;
  }

  /** The time until a bucket is full. */
  function SecondsToFull(cfg: Config, b: Bucket): real
    requires cfg.Ok()
  {
    (cfg.burst as real - b.tokens) / cfg.RefillPerSec()
  }

  /** The reset time reported at a later reading of the clock, in whole seconds. */
  function ResetAt(cfg: Config, b: Bucket, later: real): int
    requires cfg.Ok()
  {
    (later + SecondsToFull(cfg, b)).Floor
  }

  lemma FullIsExact(cfg: Config, b: Bucket, w: real)
    requires cfg.Ok()
    ensures TopUp(cfg, b.tokens, w) == cfg.burst as real <==> w >= SecondsToFull(cfg, b)
  {
    hide Config.RefillPerSec;
    var r, s := cfg.RefillPerSec(), SecondsToFull(cfg, b);
    assert s * r == cfg.burst as real - b.tokens;
    Scale(r, w, s);
    Scale(r, s, w);
  }

  /**
   A bucket left alone is full again exactly from SecondsToFull after its check on; the reported
   second is the one in which that time falls, counted from the later reading.
   */
  lemma ResetIsWhenFull(cfg: Config, b: Option<Bucket>, now: real, later: real, w: real)
    requires cfg.Ok()
    ensures var after := Spent(cfg, b, now);
      && (Refilled(cfg, Some(after), now + w) == cfg.burst as real <==> w >= SecondsToFull(cfg, after))
      && ResetAt(cfg, after, later) as real <= later + SecondsToFull(cfg, after) < ResetAt(cfg, after, later) as real + 1.0
  {
    hide SecondsToFull, TopUp;
    var after := Spent(cfg, b, now);
    FullIsExact(cfg, after, w);
    assert after.last == now && now + w - now == w;
  }

  /** The time until a bucket holds a whole token. */
  function Wait(cfg: Config, b: Bucket): real
    requires cfg.Ok()
  {
    (1.0 - b.tokens) / cfg.RefillPerSec()
  }

  lemma WaitIsExact(cfg: Config, b: Bucket, w: real)
    requires cfg.Ok()
    ensures b.tokens + w * cfg.RefillPerSec() >= 1.0 <==> w >= Wait(cfg, b)
  {
    var r, s := cfg.RefillPerSec(), Wait(cfg, b);
    assert s * r == 1.0 - b.tokens;
    Scale(r, w, s);
    Scale(r, s, w);
  }

  /**
   A refused client that waits w seconds and has not been checked in between is let through if and
   only if w has reached the exact waiting time; the advised time is more than that by at most a
   second, and by a whole second exactly when the waiting time is a whole number of seconds.
   */
  lemma RetryAfterSuffices(cfg: Config, b: Option<Bucket>, now: real, w: real)
    requires cfg.Ok() && !Verdict(cfg, b, now).allowed
    ensures var after := Spent(cfg, b, now);
      var wait := Wait(cfg, after);
      var advised := Verdict(cfg, b, now).retryAfterSeconds;
      && wait > 0.0
      && (w >= 0.0 ==> (Verdict(cfg, Some(after), now + w).allowed <==> w >= wait))
      && wait < advised as real <= wait + 1.0
      && (advised as real == wait + 1.0 <==> wait == wait.Floor as real)
      && Verdict(cfg, Some(after), now + advised as real).allowed
  {
    hide Wait, TopUp, Config.RefillPerSec;
    var after := Spent(cfg, b, now);
    var advised := Verdict(cfg, b, now).retryAfterSeconds;
    AllowedAfter(cfg, after, w);
    WaitIsPositive(cfg, after);
    AdviceRoundsUp(cfg, after);
    AllowedAfter(cfg, after, advised as real);
  }

  lemma WaitIsPositive(cfg: Config, b: Bucket)
    requires cfg.Ok() && b.tokens < 1.0
    ensures Wait(cfg, b) > 0.0
  {
  }

  lemma AllowedAfter(cfg: Config, b: Bucket, w: real)
    requires cfg.Ok()
    ensures Verdict(cfg, Some(b), b.last + w).allowed <==> w >= Wait(cfg, b)
  {
    hide Wait, Config.RefillPerSec;
    WaitIsExact(cfg, b, w);
    assert b.last + w - b.last == w;
  }

  lemma AdviceRoundsUp(cfg: Config, b: Bucket)
    requires cfg.Ok() && Wait(cfg, b) > 0.0
    ensures var wait := Wait(cfg, b);
      var advised := RetryAfter(cfg, b.tokens);
      && wait < advised as real <= wait + 1.0
      && (advised as real == wait + 1.0 <==> wait == wait.Floor as real)
  {
  }

  /** A new client may be checked burst times at one instant; every decision tells the configured limit. */
  lemma NewClientHasBurst(cfg: Config, b: Option<Bucket>, now: real)
    requires cfg.Ok()
    ensures Verdict(cfg, b, now).limit == cfg.perMinute
    ensures b == None ==> Verdict(cfg, b, now).allowed && Verdict(cfg, b, now).remaining == cfg.burst - 1
  {
    assert (cfg.burst as real - 1.0).Floor == cfg.burst - 1;
  }

  /**
   What perMinute means: a bucket left alone for w seconds has gained w * perMinute / 60 tokens, as
   far as it can hold them. So its client is let through if and only if that makes a whole token,
   and the bucket is full if and only if that fills it.
   */
  lemma MinuteIsSixtySeconds(cfg: Config, b: Option<Bucket>, now: real, w: real)
    requires cfg.Ok() && w >= 0.0
    ensures var after := Spent(cfg, b, now);
      var gained := after.tokens + w * cfg.perMinute as real / 60.0;
      && Refilled(cfg, Some(after), now + w) == (if gained > cfg.burst as real then cfg.burst as real else gained)
      && (Verdict(cfg, Some(after), now + w).allowed <==> gained >= 1.0)
      && (w >= SecondsToFull(cfg, after) <==> gained >= cfg.burst as real)
      && (w >= Wait(cfg, after) <==> gained >= 1.0)
  {
    hide Config.RefillPerSec, SecondsToFull, Wait, Spent;
    var after := Spent(cfg, b, now);
    SpentNow(cfg, b, now);
    PerMinute(cfg, w);
    assert now + w - after.last == w;
    FullIsExact(cfg, after, w);
    WaitIsExact(cfg, after, w);
  }

  lemma PerMinute(cfg: Config, w: real)
    requires cfg.Ok()
    ensures w * cfg.RefillPerSec() == w * cfg.perMinute as real / 60.0
  {
    var n := cfg.perMinute as real;
    assert n / 60.0 * 60.0 == n;
    assert w * (n / 60.0) * 60.0 == w * n;
  }

  // ---------------------------------------------------------------- the bounded limiter as a value

  datatype Slot = Slot(key: string, bucket: Bucket)

  /** Oldest use first. */
  type Slots = seq<Slot>

  function IndexOf(s: Slots, key: string): (i: nat)
    ensures i <= |s|
    ensures forall j :: 0 <= j < i ==> s[j].key != key
    ensures i < |s| ==> s[i].key == key
  {
    if s == [] || s[0].key == key then 0 else IndexOf(s[1..], key) + 1
  }

  function Lookup(s: Slots, key: string): Option<Bucket> {
    var i := IndexOf(s, key);
    if i < |s| then Some(s[i].bucket) else None
  }

  /** The slots left standing when the client's own is about to be put at the end. */
  function Others(cfg: Config, s: Slots, client: string): Slots
    requires cfg.Ok()
  {
    var i := IndexOf(s, client);
    if i < |s| then s[..i] + s[i + 1..]
    else if |s| >= cfg.maxKeys then s[1..]
    else s
  }

  function AfterCheck(cfg: Config, s: Slots, client: string, now: real): Slots
    requires cfg.Ok()
  {
    Others(cfg, s, client) + [Slot(client, Spent(cfg, Lookup(s, client), now))]
  }

  lemma KnownClient(cfg: Config, s: Slots, client: string, now: real)
    requires cfg.Ok() && IndexOf(s, client) < |s|
    ensures var i := IndexOf(s, client);
      && Others(cfg, s, client) == s[..i] + s[i + 1..]
      && Refilled(cfg, Lookup(s, client), now) == TopUp(cfg, s[i].bucket.tokens, now - s[i].bucket.last)
  {
  }

  lemma UnknownClient(cfg: Config, s: Slots, client: string)
    requires cfg.Ok() && IndexOf(s, client) == |s|
    ensures Others(cfg, s, client) == if |s| >= cfg.maxKeys then s[1..] else s
    ensures Lookup(s, client) == None
  {
  }

  // ---------------------------------------------------------------- the limiter itself

  class LruEntry {
    const key: string
    var b: Bucket

    constructor (key: string, b: Bucket)
      ensures this.key == key && this.b == b
    {
      this.key, this.b := key, b;
    }
  }

  /** The map and the list hold the same entries, one a key. */
  ghost predicate Linked(buckets: map<string, LruEntry>, lru: seq<LruEntry>) {
    && |buckets| == |lru|
    && (forall i :: 0 <= i < |lru| ==> lru[i].key in buckets && buckets[lru[i].key] == lru[i])
    && (forall k <- buckets.Keys :: buckets[k].key == k && buckets[k] in lru)
    && (forall i, j :: 0 <= i < j < |lru| ==> lru[i].key != lru[j].key)
  }

  function Without(s: seq<LruEntry>, e: LruEntry): seq<LruEntry> {
    if s == [] then [] else if s[0] == e then s[1..] else [s[0]] + Without(s[1..], e)
  }

  lemma {:induction false} WithoutAt(s: seq<LruEntry>, e: LruEntry, i: nat)
    requires i < |s| && s[i] == e
    requires forall j :: 0 <= j < i ==> s[j] != e
    ensures Without(s, e) == s[..i] + s[i + 1..]
  {
    if i > 0 {
      WithoutAt(s[1..], e, i - 1);
      assert [s[0]] + (s[1..][..i - 1] + s[1..][i..]) == s[..i] + s[i + 1..];
    }
  }

  function Moved(lru: seq<LruEntry>, i: nat): seq<LruEntry>
    requires i < |lru|
  {
    lru[..i] + lru[i + 1..] + [lru[i]]
  }

  /** Where the element now at position j was before. */
  function Origin(n: nat, i: nat, j: nat): (a: nat)
    requires i < n && j < n
    ensures a < n
  {
    if j < i then j else if j + 1 < n then j + 1 else i
  }

  lemma OriginApart(n: nat, i: nat, j: nat, k: nat)
    requires i < n && j < k < n
    ensures Origin(n, i, j) != Origin(n, i, k)
  {
  }

  lemma MovedAt(lru: seq<LruEntry>, i: nat)
    requires i < |lru|
    ensures |Moved(lru, i)| == |lru|
    ensures forall j :: 0 <= j < |lru| ==> Moved(lru, i)[j] == lru[Origin(|lru|, i, j)]
    ensures forall e :: e in lru ==> e in Moved(lru, i)
  {
    var moved := Moved(lru, i);
    forall e | e in lru ensures e in moved {
      var j :| 0 <= j < |lru| && lru[j] == e;
      assert moved[if j < i then j else if j == i then |lru| - 1 else j - 1] == e;
    }
  }

  lemma LinkedMoved(buckets: map<string, LruEntry>, lru: seq<LruEntry>, i: nat)
    requires Linked(buckets, lru) && i < |lru|
    ensures Linked(buckets, Moved(lru, i)) && |Moved(lru, i)| == |lru|
  {
    hide Moved, Origin;
    MovedAt(lru, i);
    var moved := Moved(lru, i);
    forall j, k | 0 <= j < k < |moved| ensures moved[j].key != moved[k].key {
      OriginApart(|lru|, i, j, k);
      var a, b := Origin(|lru|, i, j), Origin(|lru|, i, k);
      if a < b {
        assert lru[a].key != lru[b].key;
      } else {
        assert lru[b].key != lru[a].key;
      }
    }
  }

  lemma WithoutIsMoved(buckets: map<string, LruEntry>, lru: seq<LruEntry>, i: nat)
    requires Linked(buckets, lru) && i < |lru|
    ensures Without(lru, lru[i]) + [lru[i]] == Moved(lru, i)
  {
    forall j | 0 <= j < i ensures lru[j] != lru[i] {
      assert lru[j].key != lru[i].key;
    }
    WithoutAt(lru, lru[i], i);
  }

  lemma LastIsAlone(buckets: map<string, LruEntry>, lru: seq<LruEntry>)
    requires Linked(buckets, lru) && lru != []
    ensures lru[|lru| - 1] !in lru[..|lru| - 1]
  {
  }

  lemma LinkedDropped(buckets: map<string, LruEntry>, lru: seq<LruEntry>)
    requires Linked(buckets, lru) && lru != []
    ensures Linked(buckets - {lru[0].key}, lru[1..])
  {
    var left := buckets - {lru[0].key};
    assert left.Keys == buckets.Keys - {lru[0].key};
    forall k | k in left ensures left[k] in lru[1..] {
      var j :| 0 <= j < |lru| && lru[j] == buckets[k];
      assert lru[1..][j - 1] == left[k];
    }
  }

  lemma LinkedAdded(buckets: map<string, LruEntry>, lru: seq<LruEntry>, e: LruEntry)
    requires Linked(buckets, lru) && e.key !in buckets
    ensures Linked(buckets[e.key := e], lru + [e])
  {
    var more := buckets[e.key := e];
    forall k | k in more ensures more[k].key == k && more[k] in lru + [e] {
      if k in buckets { assert buckets[k] in lru; }
    }
  }

  /** The keys and buckets of the entries. */
  ghost function View(lru: seq<LruEntry>): Slots
    reads lru
  {
    seq(|lru|, i requires 0 <= i < |lru| reads lru => Slot(lru[i].key, lru[i].b))
  }

  lemma FoundIsEntry(buckets: map<string, LruEntry>, lru: seq<LruEntry>, client: string)
    requires Linked(buckets, lru)
    ensures var i := IndexOf(View(lru), client);
      if client in buckets then i < |lru| && lru[i] == buckets[client] else i == |lru|
  {
    if client in buckets {
      var j :| 0 <= j < |lru| && lru[j] == buckets[client];
      assert View(lru)[j].key == client;
    }
  }

  lemma ViewLength(lru: seq<LruEntry>)
    ensures |View(lru)| == |lru|
  {
  }

  lemma ViewTail(lru: seq<LruEntry>)
    requires lru != []
    ensures View(lru[1..]) == View(lru)[1..]
  {
  }

  lemma ViewMoved(lru: seq<LruEntry>, i: nat)
    requires i < |lru|
    ensures View(Moved(lru, i)[..|lru| - 1]) == View(lru)[..i] + View(lru)[i + 1..]
  {
  }

  class Limiter {
    const cfg: Config
    var buckets: map<string, LruEntry>
    var lru: seq<LruEntry>

    /** The map and the list hold the same entries, one a key, and no more than allowed. */
    ghost predicate Valid()
      reads this
    {
      cfg.Ok() && |buckets| == |lru| <= cfg.maxKeys && Linked(buckets, lru)
    }

    ghost function Contents(): Slots
      reads this, lru
    {
      View(lru)
    }

    constructor (cfg: Config)
      requires cfg.Ok()
      ensures Valid() && this.cfg == cfg && Contents() == []
    {
      this.cfg, buckets, lru := cfg, map[], [];
    }

    ghost predicate AtBack(client: string)
      reads this
    {
      client in buckets && lru != [] && lru[|lru| - 1] == buckets[client] && buckets[client].key == client
    }

    /** Finds the client's bucket, refilled, and moves its entry to the back. */
    method Recall(client: string, now: real) returns (tokens: real)
      requires Valid() && client in buckets
      modifies this`lru
      ensures Valid() && AtBack(client)
      ensures Others(cfg, old(Contents()), client) == View(lru[..|lru| - 1])
      ensures tokens == Refilled(cfg, Lookup(old(Contents()), client), now)
    {
      hide Linked, TopUp, IndexOf, Moved, Without, Others, Lookup, Refilled;
      FoundIsEntry(buckets, lru, client);
      ghost var i := IndexOf(View(lru), client);
      KnownClient(cfg, View(lru), client, now);
      var ent := buckets[client];
      tokens := TopUp(cfg, ent.b.tokens, now - ent.b.last);
      LinkedMoved(buckets, lru, i);
      WithoutIsMoved(buckets, lru, i);
      ViewMoved(lru, i);
      lru := Without(lru, ent) + [ent];
    }

    /** Starts a full bucket for an unknown client, after making room for it. */
    method MakeRoom(client: string) returns (tokens: real)
      requires Valid() && client !in buckets
      modifies this`lru, this`buckets
      ensures Valid() && |lru| < cfg.maxKeys && client !in buckets
      ensures forall k <- buckets.Keys :: k in old(buckets) && buckets[k] == old(buckets)[k]
      ensures Others(cfg, old(Contents()), client) == Contents()
      ensures Lookup(old(Contents()), client).None? && tokens == cfg.burst as real
    {
      hide Linked, IndexOf, Others, Lookup, View;
      FoundIsEntry(buckets, lru, client);
      ViewLength(lru);
      UnknownClient(cfg, View(lru), client);
      tokens := cfg.burst as real;
      if |buckets| >= cfg.maxKeys && lru != [] {
        LinkedDropped(buckets, lru);
        ViewTail(lru);
        assert (buckets - {lru[0].key}).Keys == buckets.Keys - {lru[0].key};
        buckets := buckets - {lru[0].key};
        lru := lru[1..];
      }
    }

    /**
     A check: the new contents, the decision and the reset time are those of AfterCheck, Verdict
     and ResetAt, whatever the clock shows at its two readings.
     */
    method Check(client: string, now: real, later: real) returns (d: Decision, resetEpochSeconds: int)
      requires Valid()
      modifies this, if client in buckets then {buckets[client]} else {}
      ensures Valid()
      ensures Contents() == AfterCheck(cfg, old(Contents()), client, now)
      ensures d == Verdict(cfg, Lookup(old(Contents()), client), now)
      ensures resetEpochSeconds == ResetAt(cfg, Spent(cfg, Lookup(old(Contents()), client), now), later)
      ensures forall k <- buckets.Keys :: (k in old(buckets) && buckets[k] == old(buckets)[k]) || fresh(buckets[k])
    {
      hide Linked, IndexOf, Others, Lookup, TopUp, RetryAfter, View;
      var tokens: real;
      if client in buckets {
        tokens := Recall(client, now);
      } else {
        tokens := MakeRoom(client);
      }
      var allowed := tokens >= 1.0;
      if allowed {
        tokens := tokens - 1.0;
      }
      Store(client, Bucket(tokens, now));
      resetEpochSeconds := (later + (cfg.burst as real - tokens) / cfg.RefillPerSec()).Floor;
      d := Decision(allowed, cfg.perMinute, tokens.Floor, if allowed then 0 else RetryAfter(cfg, tokens));
    }

    /** Writes the bucket into the entry at the back, or adds an entry there. */
    method Store(client: string, b: Bucket)
      requires Valid()
      requires if client in buckets then AtBack(client) else |lru| < cfg.maxKeys
      modifies this, if client in buckets then {buckets[client]} else {}
      ensures Valid()
      ensures Contents() ==
        (if client in old(buckets) then old(View(lru[..|lru| - 1])) else old(Contents())) + [Slot(client, b)]
      ensures forall k <- buckets.Keys :: (k in old(buckets) && buckets[k] == old(buckets)[k]) || fresh(buckets[k])
    {
      hide Linked;
      if client in buckets {
        LastIsAlone(buckets, lru);
        buckets[client].b := b;
      } else {
        var ent := new LruEntry(client, b);
        LinkedAdded(buckets, lru, ent);
        buckets := buckets[client := ent];
        lru := lru + [ent];
      }
    }
  }

  // ---------------------------------------------------------------- histories of checks

  datatype Event = Event(client: string, now: real)

  ghost predicate ClockRuns(events: seq<Event>) {
    forall i, j :: 0 <= i < j < |events| ==> events[i].now <= events[j].now
  }

  /** The bounded limiter after these checks. */
  function Bounded(cfg: Config, events: seq<Event>): Slots
    requires cfg.Ok()
  {
    if events == [] then []
    else
      var e := events[|events| - 1];
      AfterCheck(cfg, Bounded(cfg, events[..|events| - 1]), e.client, e.now)
  }

  function Find(buckets: map<string, Bucket>, client: string): Option<Bucket> {
    if client in buckets then Some(buckets[client]) else None
  }

  /** A limiter that never forgets a client, after these checks. */
  function Unbounded(cfg: Config, events: seq<Event>): map<string, Bucket>
    requires cfg.Ok()
  {
    if events == [] then map[]
    else
      var e := events[|events| - 1];
      var before := Unbounded(cfg, events[..|events| - 1]);
      before[e.client := Spent(cfg, Find(before, e.client), e.now)]
  }

  function BoundedDecision(cfg: Config, events: seq<Event>, i: nat): Decision
    requires cfg.Ok() && i < |events|
  {
    Verdict(cfg, Lookup(Bounded(cfg, events[..i]), events[i].client), events[i].now)
  }

  function UnboundedDecision(cfg: Config, events: seq<Event>, i: nat): Decision
    requires cfg.Ok() && i < |events|
  {
    Verdict(cfg, Find(Unbounded(cfg, events[..i]), events[i].client), events[i].now)
  }

  /** The clients checked after the last check of the client. */
  function OthersSince(events: seq<Event>, client: string): set<string> {
    if events == [] || events[|events| - 1].client == client then {}
    else OthersSince(events[..|events| - 1], client) + {events[|events| - 1].client}
  }

  ghost predicate Checked(events: seq<Event>, client: string) {
    exists i :: 0 <= i < |events| && events[i].client == client
  }

  /** Between two checks of the client there are always fewer than maxKeys other clients. */
  ghost predicate KeptInMind(cfg: Config, events: seq<Event>, client: string) {
    forall i :: 0 <= i < |events| && events[i].client == client && Checked(events[..i], client) ==>
      |OthersSince(events[..i], client)| < cfg.maxKeys
  }

  ghost predicate DistinctKeys(s: Slots) {
    forall i, j :: 0 <= i < j < |s| ==> s[i].key != s[j].key
  }

  /** Client y stands behind x in the list. */
  predicate Behind(s: Slots, x: string, y: string) {
    IndexOf(s, x) < IndexOf(s, y) < |s|
  }

  /**
   The list is in order of last use, with no client twice: behind each client stand exactly those
   checked since, and the clients missing from it have had at least maxKeys others checked since.
   */
  ghost predicate MostRecent(cfg: Config, events: seq<Event>, s: Slots) {
    && DistinctKeys(s) && |s| <= cfg.maxKeys
    && (forall x :: IndexOf(s, x) < |s| ==> Checked(events, x))
    && (forall x, y :: IndexOf(s, x) < |s| ==> (Behind(s, x, y) <==> y in OthersSince(events, x)))
    && (forall x :: Checked(events, x) && IndexOf(s, x) == |s| ==> |OthersSince(events, x)| >= cfg.maxKeys)
  }

  lemma CheckedGrows(events: seq<Event>, e: Event, k: string)
    ensures Checked(events + [e], k) <==> Checked(events, k) || k == e.client
    ensures OthersSince(events + [e], k) == if k == e.client then {} else OthersSince(events, k) + {e.client}
  {
    var more := events + [e];
    assert more[..|events|] == events;
    if Checked(events, k) {
      var i :| 0 <= i < |events| && events[i].client == k;
      assert more[i].client == k;
    }
    assert more[|events|].client == e.client;
  }

  /** Where a client's slot goes when another one, or itself, is checked. */
  function Moves(cfg: Config, s: Slots, client: string, x: string): nat
    requires cfg.Ok() && |s| <= cfg.maxKeys
  {
    var a, c := IndexOf(s, x), IndexOf(s, client);
    if c < |s| then
      if x == client then |s| - 1 else if a < c || a == |s| then a else a - 1
    else if |s| == cfg.maxKeys then
      if x == client then |s| - 1 else if a == 0 then |s| else if a == |s| then |s| else a - 1
    else
      if x == client then |s| else if a == |s| then |s| + 1 else a
  }

  lemma IndexIs(s: Slots, x: string, i: nat)
    requires DistinctKeys(s)
    requires i <= |s| && (if i < |s| then s[i].key == x else forall j :: 0 <= j < |s| ==> s[j].key != x)
    ensures IndexOf(s, x) == i
  {
  }

  /** Where the slot now at position j of the others was before. */
  function WasAt(cfg: Config, s: Slots, client: string, j: nat): nat
    requires cfg.Ok()
  {
    var c := IndexOf(s, client);
    if c < |s| then if j < c then j else j + 1
    else if |s| >= cfg.maxKeys then j + 1
    else j
  }

  lemma OthersAt(cfg: Config, s: Slots, client: string)
    requires cfg.Ok()
    ensures |Others(cfg, s, client)| == if IndexOf(s, client) < |s| || |s| >= cfg.maxKeys then |s| - 1 else |s|
    ensures forall j :: 0 <= j < |Others(cfg, s, client)| ==>
      WasAt(cfg, s, client, j) < |s| && Others(cfg, s, client)[j] == s[WasAt(cfg, s, client, j)]
  {
    hide IndexOf;
  }

  lemma DistinctAfter(cfg: Config, s: Slots, client: string, now: real)
    requires cfg.Ok() && DistinctKeys(s) && |s| <= cfg.maxKeys
    ensures DistinctKeys(AfterCheck(cfg, s, client, now))
    ensures |AfterCheck(cfg, s, client, now)| ==
      if IndexOf(s, client) < |s| || |s| == cfg.maxKeys then |s| else |s| + 1
  {
    hide IndexOf, Others, Spent, Lookup;
    OthersAt(cfg, s, client);
    var o := Others(cfg, s, client);
    forall i, j | 0 <= i < j < |o| ensures o[i].key != o[j].key {
      assert s[WasAt(cfg, s, client, i)].key != s[WasAt(cfg, s, client, j)].key;
    }
    forall j | 0 <= j < |o| ensures o[j].key != client {
      OtherThan(cfg, s, client, j);
    }
  }

  lemma OtherThan(cfg: Config, s: Slots, client: string, j: nat)
    requires cfg.Ok() && DistinctKeys(s) && j < |Others(cfg, s, client)|
    ensures WasAt(cfg, s, client, j) < |s| && s[WasAt(cfg, s, client, j)].key != client
  {
    hide IndexOf, Others;
    OthersAt(cfg, s, client);
    var c, w := IndexOf(s, client), WasAt(cfg, s, client, j);
    if c < w && c < |s| {
      assert s[c].key != s[w].key;
    }
  }

  lemma MovesThere(cfg: Config, s: Slots, client: string, now: real, x: string)
    requires cfg.Ok() && DistinctKeys(s) && |s| <= cfg.maxKeys
    ensures IndexOf(AfterCheck(cfg, s, client, now), x) == Moves(cfg, s, client, x)
  {
    hide Spent, Lookup, DistinctKeys, IndexOf;
    var t, c := AfterCheck(cfg, s, client, now), IndexOf(s, client);
    DistinctAfter(cfg, s, client, now);
    var n := Moves(cfg, s, client, x);
    if n < |t| {
      KeyThere(cfg, s, client, now, x);
    } else {
      forall j | 0 <= j < |t| ensures t[j].key != x {
        KeyFrom(cfg, s, client, now, j);
      }
    }
    IndexIs(t, x, n);
  }

  lemma KeyThere(cfg: Config, s: Slots, client: string, now: real, x: string)
    requires cfg.Ok() && |s| <= cfg.maxKeys
    ensures var t, n := AfterCheck(cfg, s, client, now), Moves(cfg, s, client, x);
      n < |t| ==> t[n].key == x
  {
    hide Spent, Lookup, IndexOf, Others;
    OthersAt(cfg, s, client);
    var t, n := AfterCheck(cfg, s, client, now), Moves(cfg, s, client, x);
    if x == client {
      assert n == |t| - 1;
    } else if n < |t| - 1 {
      assert WasAt(cfg, s, client, n) == IndexOf(s, x);
    }
  }

  lemma KeyFrom(cfg: Config, s: Slots, client: string, now: real, j: nat)
    requires cfg.Ok() && |s| <= cfg.maxKeys && j < |AfterCheck(cfg, s, client, now)|
    requires DistinctKeys(s)
    ensures var t := AfterCheck(cfg, s, client, now);
      Moves(cfg, s, client, t[j].key) < |t|
  {
    hide Spent, Lookup, IndexOf, DistinctKeys, Others;
    OthersAt(cfg, s, client);
    var t := AfterCheck(cfg, s, client, now);
    if j < |t| - 1 {
      IndexIs(s, t[j].key, WasAt(cfg, s, client, j));
    }
  }

  lemma OrderStep(cfg: Config, events: seq<Event>, s: Slots, e: Event, x: string, y: string)
    requires cfg.Ok() && MostRecent(cfg, events, s)
    ensures var t := AfterCheck(cfg, s, e.client, e.now);
      && (IndexOf(t, x) < |t| ==> Checked(events + [e], x))
      && (IndexOf(t, x) < |t| ==> (Behind(t, x, y) <==> y in OthersSince(events + [e], x)))
  {
    hide AfterCheck, Checked, OthersSince, DistinctKeys;
    var t := AfterCheck(cfg, s, e.client, e.now);
    MovesThere(cfg, s, e.client, e.now, x);
    MovesThere(cfg, s, e.client, e.now, y);
    DistinctAfter(cfg, s, e.client, e.now);
    CheckedGrows(events, e, x);
    SameIndexSameKey(s, x, y);
    SameIndexSameKey(s, x, e.client);
    SameIndexSameKey(s, y, e.client);
  }

  lemma SameIndexSameKey(s: Slots, x: string, y: string)
    ensures IndexOf(s, x) == IndexOf(s, y) < |s| ==> x == y
  {
  }

  function KeySet(s: Slots): set<string> {
    set slot | slot in s :: slot.key
  }

  lemma {:induction false} KeysCount(s: Slots)
    requires DistinctKeys(s)
    ensures |KeySet(s)| == |s|
  {
    if s != [] {
      KeysCount(s[1..]);
      assert KeySet(s) == {s[0].key} + KeySet(s[1..]);
    }
  }

  lemma SubsetIsSmaller<T>(a: set<T>, b: set<T>)
    requires a <= b
    ensures |a| <= |b|
  {
    assert b == a + (b - a);
  }

  /** Those behind position i, and the number of them. */
  lemma BehindCount(cfg: Config, events: seq<Event>, s: Slots, i: nat)
    requires MostRecent(cfg, events, s) && i < |s|
    ensures OthersSince(events, s[i].key) == KeySet(s[i + 1..])
    ensures |OthersSince(events, s[i].key)| == |s| - i - 1
  {
    hide IndexOf, Checked, OthersSince;
    var x, behind := s[i].key, s[i + 1..];
    IndexIs(s, x, i);
    forall y ensures y in OthersSince(events, x) <==> y in KeySet(behind) {
      assert Behind(s, x, y) <==> y in OthersSince(events, x);
      if y in OthersSince(events, x) {
        assert behind[IndexOf(s, y) - i - 1].key == y;
      }
      if y in KeySet(behind) {
        var slot :| slot in behind && slot.key == y;
        var j :| 0 <= j < |behind| && behind[j] == slot;
        IndexIs(s, y, i + 1 + j);
      }
    }
    KeysCount(behind);
  }

  lemma MissingStep(cfg: Config, events: seq<Event>, s: Slots, e: Event, x: string)
    requires cfg.Ok() && MostRecent(cfg, events, s) && Checked(events + [e], x)
    requires var t := AfterCheck(cfg, s, e.client, e.now); IndexOf(t, x) == |t|
    ensures |OthersSince(events + [e], x)| >= cfg.maxKeys
  {
    hide Checked, OthersSince, DistinctKeys, AfterCheck;
    CheckedGrows(events, e, x);
    DistinctAfter(cfg, s, e.client, e.now);
    MovesThere(cfg, s, e.client, e.now, x);
    SubsetIsSmaller(OthersSince(events, x), OthersSince(events, x) + {e.client});
    if IndexOf(s, x) < |s| {
      BehindCount(cfg, events, s, 0);
      assert !Behind(s, x, e.client);
      assert e.client !in OthersSince(events, x);
    }
  }

  /** A check keeps the list in order of last use. */
  lemma MostRecentStep(cfg: Config, events: seq<Event>, s: Slots, e: Event)
    requires cfg.Ok() && MostRecent(cfg, events, s)
    ensures MostRecent(cfg, events + [e], AfterCheck(cfg, s, e.client, e.now))
  {
    var t, more := AfterCheck(cfg, s, e.client, e.now), events + [e];
    DistinctAfter(cfg, s, e.client, e.now);
    forall x, y ensures IndexOf(t, x) < |t| ==> Checked(more, x) && (Behind(t, x, y) <==> y in OthersSince(more, x)) {
      OrderStep(cfg, events, s, e, x, y);
    }
    forall x | IndexOf(t, x) < |t| ensures Checked(more, x) {
      OrderStep(cfg, events, s, e, x, x);
    }
    forall x | Checked(more, x) && IndexOf(t, x) == |t| ensures |OthersSince(more, x)| >= cfg.maxKeys {
      MissingStep(cfg, events, s, e, x);
    }
  }

  lemma NothingRecent(cfg: Config)
    requires cfg.Ok()
    ensures MostRecent(cfg, [], [])
  {
  }

  lemma {:induction false} BoundedIsMostRecent(cfg: Config, events: seq<Event>)
    requires cfg.Ok()
    ensures MostRecent(cfg, events, Bounded(cfg, events))
  {
    hide MostRecent, AfterCheck;
    if events == [] {
      NothingRecent(cfg);
    } else {
      var before, e := events[..|events| - 1], events[|events| - 1];
      BoundedIsMostRecent(cfg, before);
      MostRecentStep(cfg, before, Bounded(cfg, before), e);
      assert before + [e] == events;
    }
  }

  /** A client once checked is still known if and only if fewer than maxKeys others have been checked since. */
  lemma KnownIffRecent(cfg: Config, events: seq<Event>, client: string)
    requires cfg.Ok() && Checked(events, client)
    ensures Lookup(Bounded(cfg, events), client).Some? <==> |OthersSince(events, client)| < cfg.maxKeys
  {
    BoundedIsMostRecent(cfg, events);
    var s := Bounded(cfg, events);
    var i := IndexOf(s, client);
    if i < |s| {
      BehindCount(cfg, events, s, i);
    }
  }

  // ---------------------------------------------------------------- refinement of the unbounded limiter

  lemma {:induction false} UnboundedKnows(cfg: Config, events: seq<Event>, client: string)
    requires cfg.Ok()
    ensures client in Unbounded(cfg, events) <==> Checked(events, client)
  {
    if events != [] {
      var before, e := events[..|events| - 1], events[|events| - 1];
      UnboundedKnows(cfg, before, client);
      CheckedGrows(before, e, client);
      assert before + [e] == events;
    }
  }

  lemma KeptBefore(cfg: Config, events: seq<Event>, client: string, i: nat)
    requires KeptInMind(cfg, events, client) && i <= |events|
    ensures KeptInMind(cfg, events[..i], client)
  {
    forall j | 0 <= j < i && events[..i][j].client == client && Checked(events[..i][..j], client)
      ensures |OthersSince(events[..i][..j], client)| < cfg.maxKeys
    {
      assert events[..i][..j] == events[..j];
    }
  }

  /** Looking a client up after a check of another one finds what it found before, or nothing any more. */
  lemma LookupAfterOther(cfg: Config, s: Slots, client: string, now: real, other: string)
    requires cfg.Ok() && DistinctKeys(s) && |s| <= cfg.maxKeys && other != client
    ensures var b := Lookup(AfterCheck(cfg, s, client, now), other);
      b.Some? ==> b == Lookup(s, other)
  {
    hide IndexOf, DistinctKeys, Spent;
    var t, i := AfterCheck(cfg, s, client, now), IndexOf(s, other);
    MovesThere(cfg, s, client, now, other);
    if IndexOf(t, other) < |t| {
      assert t[IndexOf(t, other)] == s[i];
    }
  }

  lemma LookupAfterOwn(cfg: Config, s: Slots, client: string, now: real)
    requires cfg.Ok() && DistinctKeys(s) && |s| <= cfg.maxKeys
    ensures Lookup(AfterCheck(cfg, s, client, now), client) == Some(Spent(cfg, Lookup(s, client), now))
  {
    hide IndexOf, DistinctKeys, Spent;
    MovesThere(cfg, s, client, now, client);
  }

  /** As long as the client is kept in mind, its bucket, if there, is the one the unbounded limiter holds. */
  lemma {:induction false} SameBucket(cfg: Config, events: seq<Event>, client: string)
    requires cfg.Ok() && KeptInMind(cfg, events, client)
    ensures var b := Lookup(Bounded(cfg, events), client);
      b.Some? ==> b == Find(Unbounded(cfg, events), client)
  {
    hide AfterCheck, Spent, KeptInMind, OthersSince, MostRecent, Lookup;
    if events != [] {
      var before, e := events[..|events| - 1], events[|events| - 1];
      var s := Bounded(cfg, before);
      KeptBefore(cfg, events, client, |before|);
      SameBucket(cfg, before, client);
      BoundedIsDistinct(cfg, before);
      if e.client == client {
        LookupAfterOwn(cfg, s, client, e.now);
        assert before + [e] == events;
        LastCheckAgrees(cfg, before, e);
      } else {
        LookupAfterOther(cfg, s, e.client, e.now, client);
      }
    } else {
      assert Bounded(cfg, events) == [];
      NothingToFind(client);
    }
  }

  lemma NothingToFind(client: string)
    ensures Lookup([], client) == None
  {
  }

  lemma BoundedIsDistinct(cfg: Config, events: seq<Event>)
    requires cfg.Ok()
    ensures DistinctKeys(Bounded(cfg, events)) && |Bounded(cfg, events)| <= cfg.maxKeys
  {
    BoundedIsMostRecent(cfg, events);
  }

  /** At a check of a client kept in mind both limiters find the same bucket. */
  lemma LastCheckAgrees(cfg: Config, before: seq<Event>, e: Event)
    requires cfg.Ok() && KeptInMind(cfg, before + [e], e.client)
    requires var b := Lookup(Bounded(cfg, before), e.client); b.Some? ==> b == Find(Unbounded(cfg, before), e.client)
    ensures Lookup(Bounded(cfg, before), e.client) == Find(Unbounded(cfg, before), e.client)
  {
    hide Bounded, Unbounded, OthersSince, Checked, Lookup;
    var events := before + [e];
    UnboundedKnows(cfg, before, e.client);
    assert events[|before|] == e && events[..|before|] == before;
    if Checked(before, e.client) {
      KnownIffRecent(cfg, before, e.client);
    }
  }

  /**
   For a client that never has maxKeys others checked between two of its own checks, the bounded
   limiter decides every check as the unbounded one does.
   */
  lemma SameDecisions(cfg: Config, events: seq<Event>, client: string, i: nat)
    requires cfg.Ok() && KeptInMind(cfg, events, client)
    requires i < |events| && events[i].client == client
    ensures BoundedDecision(cfg, events, i) == UnboundedDecision(cfg, events, i)
  {
    hide Bounded, Unbounded, KeptInMind, Verdict;
    KeptBefore(cfg, events, client, i);
    SameBucket(cfg, events[..i], client);
    KeptBefore(cfg, events, client, i + 1);
    assert events[..i + 1] == events[..i] + [events[i]];
    LastCheckAgrees(cfg, events[..i], events[i]);
  }

  /** The same clients in the same order, at these times. */
  function Timed(clients: seq<string>, times: seq<real>): seq<Event>
    requires |times| == |clients|
  {
    seq(|clients|, i requires 0 <= i < |clients| => Event(clients[i], times[i]))
  }

  function AtOnce(n: nat): seq<real> {
    seq(n, _ => 0.0)
  }

  ghost predicate Ascends(times: seq<real>) {
    forall i, j :: 0 <= i < j < |times| ==> times[i] <= times[j]
  }

  /** Each check of the client is decided as the unbounded limiter decides it. */
  ghost predicate DecidedAlike(cfg: Config, events: seq<Event>, client: string)
    requires cfg.Ok()
  {
    forall i :: 0 <= i < |events| && events[i].client == client ==>
      BoundedDecision(cfg, events, i) == UnboundedDecision(cfg, events, i)
  }

  ghost predicate SameClients(a: seq<Event>, b: seq<Event>) {
    |a| == |b| && forall i :: 0 <= i < |a| ==> a[i].client == b[i].client
  }

  lemma {:induction false} OthersIgnoreTimes(a: seq<Event>, b: seq<Event>, client: string)
    requires SameClients(a, b)
    ensures OthersSince(a, client) == OthersSince(b, client)
    ensures Checked(a, client) <==> Checked(b, client)
  {
    if a != [] {
      OthersIgnoreTimes(a[..|a| - 1], b[..|b| - 1], client);
    }
    forall i | 0 <= i < |a| ensures a[i].client == client <==> b[i].client == client {
    }
  }

  /** Whether a client is kept in mind depends on the order of the checks, not on their times. */
  lemma KeptIgnoresTimes(cfg: Config, a: seq<Event>, b: seq<Event>, client: string)
    requires SameClients(a, b) && KeptInMind(cfg, a, client)
    ensures KeptInMind(cfg, b, client)
  {
    hide OthersSince, Checked;
    forall i | 0 <= i < |b| && b[i].client == client && Checked(b[..i], client)
      ensures |OthersSince(b[..i], client)| < cfg.maxKeys
    {
      OthersIgnoreTimes(a[..i], b[..i], client);
      assert a[i].client == client;
    }
  }

  /** With no time to refill, a client that has been checked has at least one token less than a full bucket. */
  lemma {:induction false} SpentAtOnce(cfg: Config, clients: seq<string>, client: string)
    requires cfg.Ok() && Checked(Timed(clients, AtOnce(|clients|)), client)
    ensures var b := Find(Unbounded(cfg, Timed(clients, AtOnce(|clients|))), client);
      b.Some? && b.value.last == 0.0 && 0.0 <= b.value.tokens <= cfg.burst as real - 1.0
  {
    hide Config.RefillPerSec;
    var events := Timed(clients, AtOnce(|clients|));
    var n := |clients| - 1;
    var front := Timed(clients[..n], AtOnce(n));
    assert events[..n] == front && events[n] == Event(clients[n], 0.0);
    assert front + [events[n]] == events;
    CheckedGrows(front, events[n], client);
    if Checked(front, client) {
      SpentAtOnce(cfg, clients[..n], client);
      NoTimeNoTokens(cfg, Find(Unbounded(cfg, front), client).value);
    } else {
      UnboundedKnows(cfg, front, client);
    }
  }

  lemma FullAndSpentDiffer(cfg: Config, b: Bucket)
    requires cfg.Ok() && b.last == 0.0 && 0.0 <= b.tokens <= cfg.burst as real - 1.0
    ensures Verdict(cfg, None, 0.0) != Verdict(cfg, Some(b), 0.0)
  {
    hide RetryAfter, TopUp;
    NoTimeNoTokens(cfg, b);
    FloorBelow(b.tokens - 1.0, cfg.burst - 1);
    assert (cfg.burst as real - 1.0).Floor == cfg.burst - 1;
  }

  lemma FloorBelow(x: real, n: int)
    requires x < n as real
    ensures x.Floor < n
  {
  }

  /** A check of a forgotten client, all checks falling at one instant, is decided otherwise. */
  lemma ForgottenIsDecidedOtherwise(cfg: Config, clients: seq<string>, client: string, i: nat)
    requires cfg.Ok() && i < |clients| && clients[i] == client
    requires Checked(Timed(clients, AtOnce(|clients|))[..i], client)
    requires |OthersSince(Timed(clients, AtOnce(|clients|))[..i], client)| >= cfg.maxKeys
    ensures var events := Timed(clients, AtOnce(|clients|));
      BoundedDecision(cfg, events, i) != UnboundedDecision(cfg, events, i)
  {
    hide Bounded, Unbounded, OthersSince, Checked, Verdict, Lookup;
    var events := Timed(clients, AtOnce(|clients|));
    assert events[..i] == Timed(clients[..i], AtOnce(i));
    KnownIffRecent(cfg, events[..i], client);
    SpentAtOnce(cfg, clients[..i], client);
    FullAndSpentDiffer(cfg, Find(Unbounded(cfg, events[..i]), client).value);
  }

  /**
   The exact reach of the refinement: for every sequence of clients, a client always has fewer
   than maxKeys others checked between two of its own checks if and only if, at whatever ascending
   times the checks are made, each of its checks is decided as without a bound.
   */
  lemma KeptInMindIffDecidedAlike(cfg: Config, clients: seq<string>, client: string)
    requires cfg.Ok()
    ensures KeptInMind(cfg, Timed(clients, AtOnce(|clients|)), client) <==>
      forall times :: |times| == |clients| && Ascends(times) ==> DecidedAlike(cfg, Timed(clients, times), client)
  {
    hide OthersSince, Checked, BoundedDecision, UnboundedDecision;
    var events := Timed(clients, AtOnce(|clients|));
    if KeptInMind(cfg, events, client) {
      forall times | |times| == |clients| && Ascends(times) ensures DecidedAlike(cfg, Timed(clients, times), client) {
        KeptIgnoresTimes(cfg, events, Timed(clients, times), client);
        forall i | 0 <= i < |clients| && clients[i] == client
          ensures BoundedDecision(cfg, Timed(clients, times), i) == UnboundedDecision(cfg, Timed(clients, times), i)
        {
          SameDecisions(cfg, Timed(clients, times), client, i);
        }
      }
    } else {
      var i :| 0 <= i < |events| && events[i].client == client && Checked(events[..i], client)
        && |OthersSince(events[..i], client)| >= cfg.maxKeys;
      ForgottenIsDecidedOtherwise(cfg, clients, client, i);
      assert Ascends(AtOnce(|clients|));
      assert !DecidedAlike(cfg, events, client);
    }
  }

  // ---------------------------------------------------------------- how much gets through

  /** How often the bounded limiter lets the client through, from event number from on. */
  function Grants(cfg: Config, events: seq<Event>, from: nat, client: string): nat
    requires cfg.Ok()
  {
    if |events| <= from then 0
    else
      var i := |events| - 1;
      Grants(cfg, events[..i], from, client)
      + (if events[i].client == client && BoundedDecision(cfg, events, i).allowed then 1 else 0)
  }

  /** The client's bucket after some checks of which one came at or after time t0. */
  ghost predicate Potential(cfg: Config, b: Bucket, t0: real, now: real, grants: nat)
    requires cfg.Ok()
  {
    && Sane(cfg, b) && t0 <= b.last <= now
    && grants as real + b.tokens <= cfg.burst as real + (b.last - t0) * cfg.RefillPerSec()
  }

  lemma SpendingTakesOne(cfg: Config, b: Option<Bucket>, now: real)
    requires cfg.Ok()
    ensures Spent(cfg, b, now).tokens + (if Verdict(cfg, b, now).allowed then 1.0 else 0.0) == Refilled(cfg, b, now)
    ensures Refilled(cfg, b, now) <= cfg.burst as real
    ensures b.Some? ==> Refilled(cfg, b, now) <= b.value.tokens + (now - b.value.last) * cfg.RefillPerSec()
  {
  }

  lemma Distribute(x: real, y: real, r: real)
    ensures x * r + y * r == (x + y) * r
  {
  }

  /** A further check of a client already checked in the window. */
  lemma PotentialStep(cfg: Config, b: Bucket, t0: real, now: real, grants: nat)
    requires cfg.Ok() && Potential(cfg, b, t0, now, grants)
    ensures Potential(cfg, Spent(cfg, Some(b), now), t0, now, grants + if Verdict(cfg, Some(b), now).allowed then 1 else 0)
  {
    hide Refilled, Config.RefillPerSec;
    SpendingTakesOne(cfg, Some(b), now);
    SpentStaysSane(cfg, Some(b), now);
    Distribute(b.last - t0, now - b.last, cfg.RefillPerSec());
    assert b.last - t0 + (now - b.last) == now - t0;
  }

  /** Its first check in the window. */
  lemma PotentialStart(cfg: Config, b: Option<Bucket>, t0: real, now: real)
    requires cfg.Ok() && t0 <= now
    requires b.Some? ==> Sane(cfg, b.value) && b.value.last <= now
    ensures Potential(cfg, Spent(cfg, b, now), t0, now, if Verdict(cfg, b, now).allowed then 1 else 0)
  {
    hide Refilled, Config.RefillPerSec;
    SpendingTakesOne(cfg, b, now);
    SpentStaysSane(cfg, b, now);
    Earned(cfg.RefillPerSec(), now - t0);
  }

  lemma {:induction false} UnboundedIsSane(cfg: Config, events: seq<Event>, client: string)
    requires cfg.Ok() && ClockRuns(events)
    ensures var b := Find(Unbounded(cfg, events), client);
      b.Some? ==> Sane(cfg, b.value) && events != [] && b.value.last <= events[|events| - 1].now
  {
    hide Spent, Sane;
    if events != [] {
      var before, e := events[..|events| - 1], events[|events| - 1];
      UnboundedIsSane(cfg, before, client);
      if e.client == client {
        SpentStaysSane(cfg, Find(Unbounded(cfg, before), client), e.now);
        SpentNow(cfg, Find(Unbounded(cfg, before), client), e.now);
      }
    }
  }

  lemma SpentNow(cfg: Config, b: Option<Bucket>, now: real)
    requires cfg.Ok()
    ensures Spent(cfg, b, now).last == now
  {
  }

  /** What a window's grants, and the tokens left after them, amount to. */
  lemma {:induction false} GrantsPotential(cfg: Config, events: seq<Event>, from: nat, client: string)
    requires cfg.Ok() && ClockRuns(events) && KeptInMind(cfg, events, client) && from < |events|
    ensures Grants(cfg, events, from, client) > 0 ==>
      var b := Find(Unbounded(cfg, events), client);
      b.Some? && Potential(cfg, b.value, events[from].now, events[|events| - 1].now, Grants(cfg, events, from, client))
    decreases |events|
  {
    hide Spent, Verdict, Potential, KeptInMind, Bounded, Sane;
    var i := |events| - 1;
    var before, e, t0 := events[..i], events[i], events[from].now;
    KeptBefore(cfg, events, client, i);
    if i > from {
      GrantsPotential(cfg, before, from, client);
    }
    var b, g := Find(Unbounded(cfg, before), client), Grants(cfg, before, from, client);
    UnboundedIsSane(cfg, before, client);
    if e.client == client {
      SameDecisions(cfg, events, client, i);
      if g > 0 {
        PotentialWaits(cfg, b.value, t0, before[i - 1].now, e.now, g);
        PotentialStep(cfg, b.value, t0, e.now, g);
      } else {
        PotentialStart(cfg, b, t0, e.now);
      }
    } else if g > 0 {
      PotentialWaits(cfg, b.value, t0, before[i - 1].now, e.now, g);
    }
  }

  lemma PotentialWaits(cfg: Config, b: Bucket, t0: real, now: real, later: real, grants: nat)
    requires cfg.Ok() && Potential(cfg, b, t0, now, grants) && now <= later
    ensures Potential(cfg, b, t0, later, grants)
  {
  }

  /**
   In any window of T seconds a client that is kept in mind gets at most burst + T * perMinute / 60
   checks let through.
   */
  lemma GrantsAreBounded(cfg: Config, events: seq<Event>, from: nat, client: string)
    requires cfg.Ok() && ClockRuns(events) && KeptInMind(cfg, events, client) && from < |events|
    ensures Grants(cfg, events, from, client) as real
      <= cfg.burst as real + (events[|events| - 1].now - events[from].now) * (cfg.perMinute as real / 60.0)
  {
    hide Grants, Unbounded, ClockRuns, KeptInMind, Potential, Config.RefillPerSec;
    GrantsPotential(cfg, events, from, client);
    LaterIsLater(events, from);
    var g := Grants(cfg, events, from, client);
    if g > 0 {
      PotentialBounds(cfg, Find(Unbounded(cfg, events), client).value, events[from].now, events[|events| - 1].now, g);
    } else {
      NoGrantsBound(cfg, events[from].now, events[|events| - 1].now, g);
    }
  }

  lemma LaterIsLater(events: seq<Event>, from: nat)
    requires ClockRuns(events) && from < |events|
    ensures events[from].now <= events[|events| - 1].now
  {
  }

  lemma PotentialBounds(cfg: Config, b: Bucket, t0: real, now: real, grants: nat)
    requires cfg.Ok() && Potential(cfg, b, t0, now, grants)
    ensures grants as real <= cfg.burst as real + (now - t0) * (cfg.perMinute as real / 60.0)
  {
    var r := cfg.RefillPerSec();
    Scale(r, b.last - t0, now - t0);
  }

  lemma NoGrantsBound(cfg: Config, t0: real, now: real, grants: nat)
    requires cfg.Ok() && t0 <= now && grants == 0
    ensures grants as real <= cfg.burst as real + (now - t0) * (cfg.perMinute as real / 60.0)
  {
    Earned(cfg.RefillPerSec(), now - t0);
  }

  // ---------------------------------------------------------------- and at least how much

  /** When the client was last checked. */
  function LastTime(events: seq<Event>, client: string): Option<real> {
    if events == [] then None
    else if events[|events| - 1].client == client then Some(events[|events| - 1].now)
    else LastTime(events[..|events| - 1], client)
  }

  function FirstTime(events: seq<Event>, client: string): Option<real> {
    if events == [] then None
    else if events[0].client == client then Some(events[0].now)
    else FirstTime(events[1..], client)
  }

  /** The client is checked again before it has earned more than one token. */
  ghost predicate ChecksOften(cfg: Config, events: seq<Event>, client: string) {
    forall i :: 0 <= i < |events| && events[i].client == client && LastTime(events[..i], client).Some? ==>
      (events[i].now - LastTime(events[..i], client).value) * cfg.perMinute as real <= 60.0
  }

  lemma OftenBefore(cfg: Config, events: seq<Event>, client: string)
    requires ChecksOften(cfg, events, client) && events != []
    ensures ChecksOften(cfg, events[..|events| - 1], client)
  {
    var before := events[..|events| - 1];
    forall i | 0 <= i < |before| && before[i].client == client && LastTime(before[..i], client).Some?
      ensures (before[i].now - LastTime(before[..i], client).value) * cfg.perMinute as real <= 60.0
    {
      assert before[..i] == events[..i];
    }
  }

  lemma {:induction false} TimesOf(events: seq<Event>, client: string)
    ensures FirstTime(events, client).Some? <==> Checked(events, client)
    ensures LastTime(events, client).Some? <==> Checked(events, client)
    decreases |events|
  {
    if events != [] {
      var before, e := events[..|events| - 1], events[|events| - 1];
      TimesOf(before, client);
      CheckedGrows(before, e, client);
      assert before + [e] == events;
      FirstTimeGrows(before, e, client);
    }
  }

  lemma {:induction false} FirstTimeGrows(events: seq<Event>, e: Event, client: string)
    ensures FirstTime(events + [e], client) ==
      if FirstTime(events, client).Some? then FirstTime(events, client) else if e.client == client then Some(e.now) else None
  {
    if events == [] {
      assert events + [e] == [e] && FirstTime([], client) == None;
    } else {
      assert (events + [e])[1..] == events[1..] + [e];
      FirstTimeGrows(events[1..], e, client);
    }
  }

  lemma {:induction false} UncheckedGetsNothing(cfg: Config, events: seq<Event>, client: string)
    requires cfg.Ok() && !Checked(events, client)
    ensures Grants(cfg, events, 0, client) == 0
  {
    hide BoundedDecision;
    if events != [] {
      var before, e := events[..|events| - 1], events[|events| - 1];
      CheckedGrows(before, e, client);
      assert before + [e] == events;
      UncheckedGetsNothing(cfg, before, client);
    }
  }

  /** After some checks, the first at t0: what was let through and what is left is the burst and all that was earned. */
  ghost predicate Balanced(cfg: Config, b: Bucket, t0: real, grants: nat)
    requires cfg.Ok()
  {
    && b.tokens <= cfg.burst as real - 1.0
    && grants as real + b.tokens == cfg.burst as real + (b.last - t0) * cfg.RefillPerSec()
  }

  lemma BalancedStart(cfg: Config, now: real)
    requires cfg.Ok()
    ensures Verdict(cfg, None, now).allowed && Balanced(cfg, Spent(cfg, None, now), now, 1)
  {
    assert (now - now) * cfg.RefillPerSec() == 0.0;
  }

  lemma BalancedStep(cfg: Config, b: Bucket, t0: real, now: real, grants: nat)
    requires cfg.Ok() && cfg.burst >= 2 && Balanced(cfg, b, t0, grants)
    requires (now - b.last) * cfg.perMinute as real <= 60.0
    ensures Balanced(cfg, Spent(cfg, Some(b), now), t0, grants + if Verdict(cfg, Some(b), now).allowed then 1 else 0)
  {
    hide Config.RefillPerSec;
    PerMinute(cfg, now - b.last);
    SpendingTakesOne(cfg, Some(b), now);
    Distribute(b.last - t0, now - b.last, cfg.RefillPerSec());
    assert b.last - t0 + (now - b.last) == now - t0;
  }

  lemma {:induction false} BalancedThroughout(cfg: Config, events: seq<Event>, client: string)
    requires cfg.Ok() && cfg.burst >= 2 && KeptInMind(cfg, events, client)
    requires ChecksOften(cfg, events, client) && Checked(events, client)
    ensures FirstTime(events, client).Some? && LastTime(events, client).Some?
    ensures var b := Find(Unbounded(cfg, events), client);
      b.Some? && Some(b.value.last) == LastTime(events, client)
      && Balanced(cfg, b.value, FirstTime(events, client).value, Grants(cfg, events, 0, client))
  {
    hide Spent, Verdict, Balanced, KeptInMind, Bounded, ChecksOften;
    var i := |events| - 1;
    var before, e := events[..i], events[i];
    assert before + [e] == events;
    TimesOf(events, client);
    TimesOf(before, client);
    CheckedGrows(before, e, client);
    FirstTimeGrows(before, e, client);
    KeptBefore(cfg, events, client, i);
    OftenBefore(cfg, events, client);
    if Checked(before, client) {
      BalancedThroughout(cfg, before, client);
    } else {
      UnboundedKnows(cfg, before, client);
      UncheckedGetsNothing(cfg, before, client);
    }
    if e.client == client {
      SameDecisions(cfg, events, client, i);
      SpentNow(cfg, Find(Unbounded(cfg, before), client), e.now);
      if Checked(before, client) {
        assert (e.now - LastTime(before, client).value) * cfg.perMinute as real <= 60.0 by { OftenNow(cfg, events, client); }
        BalancedStep(cfg, Find(Unbounded(cfg, before), client).value, FirstTime(before, client).value, e.now, Grants(cfg, before, 0, client));
      } else {
        BalancedStart(cfg, e.now);
      }
    }
  }

  lemma OftenNow(cfg: Config, events: seq<Event>, client: string)
    requires events != [] && ChecksOften(cfg, events, client) && events[|events| - 1].client == client
    requires LastTime(events[..|events| - 1], client).Some?
    ensures (events[|events| - 1].now - LastTime(events[..|events| - 1], client).value) * cfg.perMinute as real <= 60.0
  {
  }

  /**
   A client that checks at least every 60 / perMinute seconds, against a burst of two or more, loses
   nothing: from its first check to its last, T seconds later, it is let through more than
   T * perMinute / 60 times, and at most burst times more than that.
   */
  lemma GrantsAreEarned(cfg: Config, events: seq<Event>, client: string)
    requires cfg.Ok() && cfg.burst >= 2 && ClockRuns(events) && KeptInMind(cfg, events, client)
    requires ChecksOften(cfg, events, client) && Checked(events, client)
    ensures FirstTime(events, client).Some? && LastTime(events, client).Some?
    ensures var earned := (LastTime(events, client).value - FirstTime(events, client).value) * cfg.perMinute as real / 60.0;
      earned + 1.0 <= Grants(cfg, events, 0, client) as real <= cfg.burst as real + earned
  {
    hide Grants, Unbounded, KeptInMind, ChecksOften, ClockRuns, Checked, Config.RefillPerSec, Balanced, Sane, FirstTime, LastTime;
    BalancedThroughout(cfg, events, client);
    UnboundedIsSane(cfg, events, client);
    BalanceInMinutes(cfg, Find(Unbounded(cfg, events), client).value, FirstTime(events, client).value, Grants(cfg, events, 0, client));
  }

  lemma BalanceInMinutes(cfg: Config, b: Bucket, t0: real, grants: nat)
    requires cfg.Ok() && Balanced(cfg, b, t0, grants) && Sane(cfg, b)
    ensures var earned := (b.last - t0) * cfg.perMinute as real / 60.0;
      earned + 1.0 <= grants as real <= cfg.burst as real + earned
  {
    hide Config.RefillPerSec;
    PerMinute(cfg, b.last - t0);
  }

  /** A client that is forgotten starts again with a full bucket: two checks at one instant against a burst of one. */
  lemma ForgottenClientStartsAfresh()
    ensures var cfg := Config(1, 1, 1);
      var events := [Event("a", 0.0), Event("b", 0.0), Event("a", 0.0)];
      cfg.Ok() && ClockRuns(events) && Grants(cfg, events, 0, "a") == 2
  {
  }
}
