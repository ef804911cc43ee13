/**
 Render commands as lines of JSON, written by the orchestrator and read by the workers with a
 search for the quoted key.
 */
module CommandWire {
  import opened Basics
  import opened Decimals
  import opened PoolProtocol

  const MAX_INT: int := 2147483647
  const MIN_INT: int := -2147483648

  const QUOTE := "\""

  // ---------------------------------------------------------------- the search

  /** The first occurrence of t in s. */
  function Find(s: string, t: string): (i: Option<nat>)
    ensures i.Some? ==> i.value + |t| <= |s| && s[i.value..][..|t|] == t
  {
    if t <= s then Some(0)
    else if s == "" then None
    else match Find(s[1..], t)
      case None => None
      case Some(i) => Some(i + 1)
  }

  predicate IsGap(c: char) {
    c == ' ' || c == '\t' || c == ':'
  }

  function SkipGap(s: string): string {
    if s != "" && IsGap(s[0]) then SkipGap(s[1..]) else s
  }

  lemma SkipGapStep(json: string, pos: nat)
    requires pos < |json|
    ensures SkipGap(json[pos..]) == if IsGap(json[pos]) then SkipGap(json[pos + 1..]) else json[pos..]
  {
  }

  lemma AfterGap(json: string, pos: nat)
    requires pos <= |json| && (pos < |json| ==> !IsGap(json[pos]))
    ensures SkipGap(json[pos..]) == json[pos..]
  {
  }

  function Quoted(key: string): string {
    QUOTE + key + QUOTE
  }

  /** What follows the first quoted occurrence of the key and the gap after it. */
  function FieldText(json: string, key: string): Option<string> {
    match Find(json, Quoted(key))
    case None => None
    case Some(i) => Some(SkipGap(json[i + |Quoted(key)|..]))
  }

  function QuotedText(s: string): string {
    if s == "" || s[0] != '"' then ""
    else match Find(s[1..], QUOTE)
      case None => ""
      case Some(end) => s[1..][..end]
  }

  function StringField(json: string, key: string): string {
    match FieldText(json, key)
    case None => ""
    case Some(s) => QuotedText(s)
  }

  predicate IsSpace(c: char) {
    c == ' ' || (9 as char <= c <= 13 as char)
  }

  function SkipSpace(s: string): string {
    if s != "" && IsSpace(s[0]) then SkipSpace(s[1..]) else s
  }

  /** std::stoi: leading space, a sign, digits; whatever follows is ignored; no digits or overflow is an error. */
  function Stoi(s: string): Option<int> {
    var t := SkipSpace(s);
    var negative := t != "" && t[0] == '-';
    var u := if t != "" && (t[0] == '-' || t[0] == '+') then t[1..] else t;
    var k := DigitsAt(u);
    if k == 0 then None
    else
      var digits: int := Value(u[..k]);
      var v := if negative then -digits else digits;
      if MIN_INT <= v <= MAX_INT then Some(v) else None
  }

  function StoiOr(s: string, default: int): int {
    match Stoi(s)
    case None => default
    case Some(v) => v
  }

  function IntField(json: string, key: string): int {
    match FieldText(json, key)
    case None => -1
    case Some(s) => StoiOr(s, -1)
  }

  method JsonString(json: string, key: string) returns (value: string)
    ensures value == StringField(json, key)
  {
    hide Find, SkipGap, Quoted, IsGap;
    var found := Find(json, Quoted(key));
    if found.None? {
      return "";
    }
    ghost var start := found.value + |Quoted(key)|;
    var pos := found.value + |Quoted(key)|;
    while pos < |json| && IsGap(json[pos])
      invariant start <= pos <= |json|
      invariant SkipGap(json[pos..]) == SkipGap(json[start..])
    {
      SkipGapStep(json, pos);
      pos := pos + 1;
    }
    AfterGap(json, pos);
    if pos >= |json| || json[pos] != '"' {
      return "";
    }
    pos := pos + 1;
    assert json[pos - 1..][1..] == json[pos..];
    var end := Find(json[pos..], QUOTE);
    if end.None? {
      return "";
    }
    value := json[pos..][..end.value];
  }

  method JsonInt(json: string, key: string) returns (value: int)
    ensures value == IntField(json, key)
  {
    hide Find, SkipGap, Quoted, IsGap, StoiOr;
    var found := Find(json, Quoted(key));
    if found.None? {
      return -1;
    }
    ghost var start := found.value + |Quoted(key)|;
    var pos := found.value + |Quoted(key)|;
    while pos < |json| && IsGap(json[pos])
      invariant start <= pos <= |json|
      invariant SkipGap(json[pos..]) == SkipGap(json[start..])
    {
      SkipGapStep(json, pos);
      pos := pos + 1;
    }
    AfterGap(json, pos);
    value := StoiOr(json[pos..], -1);
  }

  // ---------------------------------------------------------------- a line as the texts between its quotes

  ghost predicate QuoteFree(parts: seq<string>) {
    forall p <- parts :: '"' !in p
  }

  function Between(parts: seq<string>): string
    requires parts != []
  {
    if |parts| == 1 then parts[0] else parts[0] + QUOTE + Between(parts[1..])
  }

  /** The parts after the first one, but the very first and last, that equals the key. */
  function After(parts: seq<string>, key: string): (rest: Option<seq<string>>)
    ensures rest.Some? ==> rest.value != []
  {
    if |parts| < 3 then None
    else if parts[1] == key then Some(parts[2..])
    else After(parts[1..], key)
  }

  lemma PrefixStep(s: string, t: string)
    requires s != ""
    ensures s <= t <==> t != "" && s[0] == t[0] && s[1..] <= t[1..]
  {
  }

  function Later(i: Option<nat>, d: nat): Option<nat> {
    match i
    case None => None
    case Some(n) => Some(n + d)
  }

  lemma FindStep(s: string, t: string)
    requires s != "" && t != ""
    ensures Find(s, t) == if t[0] == s[0] && t[1..] <= s[1..] then Some(0) else Later(Find(s[1..], t), 1)
  {
  }

  lemma {:induction false} FindPastFirst(a: string, b: string, key: string)
    requires '"' !in a
    ensures Find(a + QUOTE + b, Quoted(key)) ==
      if key + QUOTE <= b then Some(|a|) else Later(Find(b, Quoted(key)), |a| + 1)
  {
    hide Find;
    var s := a + QUOTE + b;
    assert Quoted(key)[1..] == key + QUOTE;
    FindStep(s, Quoted(key));
    if a == "" {
      assert s[1..] == b;
    } else {
      assert s[0] == a[0] && Quoted(key)[0] == '"';
      assert s[1..] == a[1..] + QUOTE + b;
      FindPastFirst(a[1..], b, key);
    }
  }

  lemma {:induction false} FindQuote(a: string, b: string)
    requires '"' !in a
    ensures Find(a + QUOTE + b, QUOTE) == Some(|a|)
  {
    var s := a + QUOTE + b;
    if a != "" {
      assert s[0] == a[0] && s[1..] == a[1..] + QUOTE + b;
      FindQuote(a[1..], b);
    }
  }

  lemma {:induction false} KeyAtStart(a: string, b: string, key: string)
    requires '"' !in a && '"' !in key
    ensures key + QUOTE <= a + QUOTE + b <==> a == key
  {
    PrefixStep(key + QUOTE, a + QUOTE + b);
    if key != "" && a != "" {
      KeyAtStart(a[1..], b, key[1..]);
      assert (key + QUOTE)[1..] == key[1..] + QUOTE;
      assert (a + QUOTE + b)[1..] == a[1..] + QUOTE + b;
      assert a == [a[0]] + a[1..] && key == [key[0]] + key[1..];
    }
  }

  lemma {:induction false} KeyNeedsQuote(s: string, key: string)
    requires '"' !in s
    ensures !(key + QUOTE <= s)
  {
    PrefixStep(key + QUOTE, s);
    if key != "" && s != "" {
      KeyNeedsQuote(s[1..], key[1..]);
      assert (key + QUOTE)[1..] == key[1..] + QUOTE;
    }
  }

  /** Searching a line for a quoted key is looking among its parts. */
  lemma {:induction false} FindIsAfter(parts: seq<string>, key: string)
    requires parts != [] && QuoteFree(parts) && '"' !in key
    ensures match After(parts, key)
      case None => Find(Between(parts), Quoted(key)).None?
      case Some(rest) =>
        var i := Find(Between(parts), Quoted(key));
        i.Some? && Between(parts)[i.value + |Quoted(key)|..] == Between(rest)
  {
    hide Find;
    if |parts| == 1 {
      NoQuoteNoKey(parts[0], key);
    } else {
      var a, tail := parts[0], parts[1..];
      FindPastFirst(a, Between(tail), key);
      if |parts| == 2 {
        NoQuoteNoKey(parts[1], key);
      } else {
        KeyAtStart(tail[0], Between(tail[1..]), key);
        if tail[0] == key {
          assert parts[2..] == tail[1..];
          assert Between(parts) == a + Quoted(key) + Between(tail[1..]);
        } else {
          FindIsAfter(tail, key);
        }
      }
    }
  }

  lemma {:induction false} NoQuoteNoKey(s: string, key: string)
    requires '"' !in s
    ensures Find(s, Quoted(key)).None? && !(key + QUOTE <= s)
  {
    KeyNeedsQuote(s, key);
    assert Quoted(key)[0] == '"';
    if s != "" {
      NoQuoteNoKey(s[1..], key);
    }
  }

  // ---------------------------------------------------------------- the render command

  /** Characters that the JSON encoder writes as they are. */
  predicate IsPlain(c: char) {
    c >= ' ' && c != '"' && c != '\\' && c != '<' && c != '>' && c != '&' && c != '\U{2028}' && c != '\U{2029}'
  }

  predicate Plain(s: string) {
    forall c <- s :: IsPlain(c)
  }

  function Parts(job: Job): seq<string> {
    ["{", "cmd", ":", "render", ",", "output", ":", job.req.output, ",",
     "page_end", ":" + Signed(job.req.pageEnd) + ",", "page_start", ":" + Signed(job.req.pageStart) + ",",
     "seq", ":" + Signed(job.seqNo) + "}"]
  }

  /** The encoder sorts the keys of a map. */
  function Encode(job: Job): string
    requires Plain(job.req.output)
  {
    "{\"cmd\":\"render\",\"output\":\"" + job.req.output + "\",\"page_end\"" + FromPageEnd(job)
  }

  function FromPageEnd(job: Job): string {
    ":" + Signed(job.req.pageEnd) + ",\"page_start\"" + FromPageStart(job)
  }

  function FromPageStart(job: Job): string {
    ":" + Signed(job.req.pageStart) + ",\"seq\"" + FromSeqNo(job)
  }

  function FromSeqNo(job: Job): string {
    ":" + Signed(job.seqNo) + "}"
  }

  /** What the leader, and a child for a render command, make of a line. */
  function ParseLine(line: string): Line {
    var cmd := StringField(line, "cmd");
    if cmd == "quit" then Quit
    else if cmd == "render" then
      Render(Job(IntField(line, "seq"),
                 Request(IntField(line, "page_start"), IntField(line, "page_end"), StringField(line, "output"))))
    else Unknown(IntField(line, "seq"), cmd)
  }

  lemma SignedHasNoQuote(n: int)
    ensures '"' !in Signed(n) && '\n' !in Signed(n)
  {
  }

  lemma PartsAreQuoteFree(job: Job)
    requires Plain(job.req.output)
    ensures QuoteFree(Parts(job))
  {
    SignedHasNoQuote(job.seqNo);
    SignedHasNoQuote(job.req.pageStart);
    SignedHasNoQuote(job.req.pageEnd);
    forall c | c in job.req.output ensures c != '"' {
      assert IsPlain(c);
    }
  }

  lemma TwoParts(parts: seq<string>, k: nat)
    requires k + 2 < |parts|
    ensures Between(parts[k..]) == parts[k] + (QUOTE + parts[k + 1] + QUOTE + Between(parts[k + 2..]))
  {
  }

  lemma NumberParts(n: string, key: string, rest: string)
    ensures n + "," + (QUOTE + key + QUOTE + rest) == n + ("," + QUOTE + key + QUOTE) + rest
  {
  }

  lemma TailPart(output: string, rest: string)
    ensures QUOTE + output + QUOTE + ("," + (QUOTE + "page_end" + QUOTE + rest)) == QUOTE + (output + "\",\"page_end\"" + rest)
  {
  }

  lemma OutputPart(rest: string)
    ensures "," + (QUOTE + "output" + QUOTE + (":" + (QUOTE + rest))) == ",\"output\":\"" + rest
  {
  }

  lemma CommandPart(rest: string)
    ensures "{" + (QUOTE + "cmd" + QUOTE + (":" + (QUOTE + "render" + QUOTE + rest))) == "{\"cmd\":\"render\"" + rest
  {
  }

  lemma HeadParts(output: string, rest: string)
    ensures "{" + (QUOTE + "cmd" + QUOTE + (":" + (QUOTE + "render" + QUOTE + ("," + (QUOTE + "output" + QUOTE + (":" + (QUOTE + output + QUOTE + ("," + (QUOTE + "page_end" + QUOTE + rest)))))))))
            == "{\"cmd\":\"render\",\"output\":\"" + output + "\",\"page_end\"" + rest
  {
    var value := output + "\",\"page_end\"" + rest;
    TailPart(output, rest);
    OutputPart(value);
    CommandPart(",\"output\":\"" + value);
    assert "{\"cmd\":\"render\"" + (",\"output\":\"" + value) == "{\"cmd\":\"render\",\"output\":\"" + value;
    assert "{\"cmd\":\"render\",\"output\":\"" + value == "{\"cmd\":\"render\",\"output\":\"" + output + "\",\"page_end\"" + rest;
  }

  lemma NumbersAreParts(job: Job)
    ensures Between(Parts(job)[10..]) == FromPageEnd(job)
  {
    hide Signed, Between;
    var p := Parts(job);
    var e, s := ":" + Signed(job.req.pageEnd), ":" + Signed(job.req.pageStart);
    LastPart(p);
    TwoParts(p, 12);
    NumberParts(s, "seq", p[14]);
    assert "," + QUOTE + "seq" + QUOTE == ",\"seq\"";
    assert Between(p[12..]) == FromPageStart(job);
    TwoParts(p, 10);
    NumberParts(e, "page_start", FromPageStart(job));
    assert "," + QUOTE + "page_start" + QUOTE == ",\"page_start\"";
  }

  lemma EncodeIsParts(job: Job)
    requires Plain(job.req.output)
    ensures Encode(job) == Between(Parts(job))
  {
    hide Signed, Between, Plain, FromPageEnd;
    var p := Parts(job);
    NumbersAreParts(job);
    TwoParts(p, 8);
    TwoParts(p, 6);
    TwoParts(p, 4);
    TwoParts(p, 2);
    TwoParts(p, 0);
    assert p[0..] == p;
    HeadParts(job.req.output, FromPageEnd(job));
  }

  lemma LastPart(parts: seq<string>)
    requires parts != []
    ensures Between(parts[|parts| - 1..]) == parts[|parts| - 1]
  {
  }

  // ---------------------------------------------------------------- reading the fields back

  lemma {:induction false} AfterAt(parts: seq<string>, i: nat, key: string)
    requires 1 <= i && i + 1 < |parts| && parts[i] == key
    requires forall j :: 1 <= j < i ==> parts[j] != key
    ensures After(parts, key) == Some(parts[i + 1..])
  {
    if i > 1 {
      AfterAt(parts[1..], i - 1, key);
      assert parts[1..][i..] == parts[i + 1..];
    }
  }

  /** The text of a field whose key is the first part equal to it. */
  lemma FieldAt(job: Job, i: nat, key: string)
    requires Plain(job.req.output) && '"' !in key
    requires 1 <= i && i + 1 < |Parts(job)| && Parts(job)[i] == key
    requires forall j :: 1 <= j < i ==> Parts(job)[j] != key
    ensures FieldText(Encode(job), key) == Some(SkipGap(Between(Parts(job)[i + 1..])))
  {
    hide Find, Between, SkipGap, Encode;
    PartsAreQuoteFree(job);
    EncodeIsParts(job);
    AfterAt(Parts(job), i, key);
    FindIsAfter(Parts(job), key);
  }

  lemma QuotedAfterColon(text: string, rest: string)
    requires '"' !in text
    ensures QuotedText(SkipGap(":" + (QUOTE + text + QUOTE + rest))) == text
  {
    var s := QUOTE + text + QUOTE + rest;
    assert (":" + s)[1..] == s;
    assert SkipGap(":" + s) == s;
    assert s[1..] == text + QUOTE + rest;
    FindQuote(text, rest);
  }

  lemma NoNumberAtComma(more: string)
    ensures StoiOr(SkipGap("," + more), -1) == -1
  {
  }

  lemma StoiOfDigits(n: int, more: string)
    requires n >= 0 && more != "" && !IsDigit(more[0])
    ensures Stoi(Decimal(n) + more) == if n <= MAX_INT then Some(n) else None
    ensures Stoi("-" + (Decimal(n) + more)) == if n <= -MIN_INT then Some(-n) else None
  {
    hide Value, Decimal, DigitsAt;
    var s := Decimal(n) + more;
    assert IsDigit(Decimal(n)[0]) && s[0] == Decimal(n)[0];
    assert SkipSpace(s) == s;
    DecimalThenMore(n, more);
    assert ("-" + s)[1..] == s;
    assert SkipSpace("-" + s) == "-" + s;
  }

  lemma NumberAfterColon(n: int, more: string)
    requires more != "" && !IsDigit(more[0])
    ensures StoiOr(SkipGap(":" + (Signed(n) + more)), -1) == if MIN_INT <= n <= MAX_INT then n else -1
  {
    hide Decimal, Stoi;
    var m := if n < 0 then -n else n;
    StoiOfDigits(m, more);
    assert IsDigit(Decimal(m)[0]);
    assert "-" + Decimal(m) + more == "-" + (Decimal(m) + more);
    GapEndsAt(Signed(n) + more);
  }

  lemma GapEndsAt(s: string)
    requires s != "" && !IsGap(s[0])
    ensures SkipGap(":" + s) == s
  {
  }

  lemma StringFields(job: Job)
    requires Plain(job.req.output)
    ensures StringField(Encode(job), "cmd") == "render"
    ensures StringField(Encode(job), "output") == job.req.output
  {
    hide Encode, Between, SkipGap, QuotedText, Signed, After;
    var p := Parts(job);
    PartsAreQuoteFree(job);
    FieldAt(job, 1, "cmd");
    TwoParts(p, 2);
    QuotedAfterColon("render", Between(p[4..]));
    FieldAt(job, 5, "output");
    TwoParts(p, 6);
    assert job.req.output == p[7];
    QuotedAfterColon(job.req.output, Between(p[8..]));
  }

  /** A number field is found, unless the output path is spelled like its key. */
  ghost predicate Readable(job: Job, key: string, n: int) {
    (job.req.output != key && MIN_INT <= n <= MAX_INT) || n == -1
  }

  lemma ClashingField(job: Job, key: string)
    requires Plain(job.req.output) && job.req.output == key
    requires key == "page_end" || key == "page_start" || key == "seq"
    ensures IntField(Encode(job), key) == -1
  {
    hide Encode, Between, SkipGap, StoiOr, Signed, After, Plain;
    PlainHasNoQuote(key);
    FieldAt(job, 7, key);
    TwoParts(Parts(job), 8);
    NoNumberAtComma(QUOTE + "page_end" + QUOTE + Between(Parts(job)[10..]));
  }

  lemma PlainHasNoQuote(s: string)
    requires Plain(s)
    ensures '"' !in s
  {
  }

  lemma PlainIsOneLine(s: string)
    requires Plain(s)
    ensures '\n' !in s
  {
  }

  lemma NumberPartIsNoKey(n: int, key: string)
    requires key != "" && key[0] != ':'
    ensures ":" + Signed(n) + "," != key
  {
  }

  lemma PageEndField(job: Job)
    requires Plain(job.req.output)
    ensures IntField(Encode(job), "page_end") == job.req.pageEnd <==> Readable(job, "page_end", job.req.pageEnd)
  {
    hide Encode, Between, SkipGap, StoiOr, Signed, After, Plain;
    var p := Parts(job);
    if job.req.output == "page_end" {
      ClashingField(job, "page_end");
    } else {
      FieldAt(job, 9, "page_end");
      TwoParts(p, 10);
      NumberInTheMiddle(job.req.pageEnd, QUOTE + p[11] + QUOTE + Between(p[12..]));
    }
  }

  lemma PageStartField(job: Job)
    requires Plain(job.req.output)
    ensures IntField(Encode(job), "page_start") == job.req.pageStart <==> Readable(job, "page_start", job.req.pageStart)
  {
    hide Encode, Between, SkipGap, StoiOr, Signed, After, Plain;
    var p := Parts(job);
    if job.req.output == "page_start" {
      ClashingField(job, "page_start");
    } else {
      NumberPartIsNoKey(job.req.pageEnd, "page_start");
      FieldAt(job, 11, "page_start");
      TwoParts(p, 12);
      NumberInTheMiddle(job.req.pageStart, QUOTE + p[13] + QUOTE + Between(p[14..]));
    }
  }

  lemma SeqNoField(job: Job)
    requires Plain(job.req.output)
    ensures IntField(Encode(job), "seq") == job.seqNo <==> Readable(job, "seq", job.seqNo)
  {
    hide Encode, Between, SkipGap, StoiOr, Signed, After, Plain;
    var p := Parts(job);
    if job.req.output == "seq" {
      ClashingField(job, "seq");
    } else {
      NumberPartIsNoKey(job.req.pageEnd, "seq");
      NumberPartIsNoKey(job.req.pageStart, "seq");
      FieldAt(job, 13, "seq");
      LastPart(p);
      NumberAfterColon(job.seqNo, "}");
      assert ":" + (Signed(job.seqNo) + "}") == p[14];
    }
  }

  lemma NumberFields(job: Job)
    requires Plain(job.req.output)
    ensures IntField(Encode(job), "page_end") == job.req.pageEnd <==> Readable(job, "page_end", job.req.pageEnd)
    ensures IntField(Encode(job), "page_start") == job.req.pageStart <==> Readable(job, "page_start", job.req.pageStart)
    ensures IntField(Encode(job), "seq") == job.seqNo <==> Readable(job, "seq", job.seqNo)
  {
    PageEndField(job);
    PageStartField(job);
    SeqNoField(job);
  }

  lemma NumberInTheMiddle(n: int, rest: string)
    ensures StoiOr(SkipGap(":" + Signed(n) + "," + rest), -1) == if MIN_INT <= n <= MAX_INT then n else -1
  {
    hide SkipGap, StoiOr, Signed;
    NumberAfterColon(n, "," + rest);
    assert ":" + (Signed(n) + ("," + rest)) == ":" + Signed(n) + "," + rest;
  }

  /**
   For every path of plain characters the worker reads back exactly the command that was sent, if
   and only if the path is not spelled like one of the numeric keys and the numbers fit a C int
   (a number that is itself -1, the value of a field not found, excepted).
   */
  lemma CommandRoundTrip(job: Job)
    requires Plain(job.req.output)
    ensures ParseLine(Encode(job)) == Render(job) <==>
      && Readable(job, "page_end", job.req.pageEnd)
      && Readable(job, "page_start", job.req.pageStart)
      && Readable(job, "seq", job.seqNo)
  {
    hide Encode, FieldText, StringField, IntField;
    StringFields(job);
    NumberFields(job);
  }

  /** A limit of the key search: with a path named like a key, the command is read as another one. The orchestrator builds no such path. */
  lemma PathNamedLikeAKey(seqNo: nat, pageStart: nat, pageEnd: nat)
    requires seqNo <= MAX_INT && pageStart <= MAX_INT && pageEnd <= MAX_INT
    ensures Plain("seq")
    ensures ParseLine(Encode(Job(seqNo, Request(pageStart, pageEnd, "seq"))))
            == Render(Job(-1, Request(pageStart, pageEnd, "seq")))
  {
    hide Encode, FieldText, StringField, IntField;
    var job := Job(seqNo, Request(pageStart, pageEnd, "seq"));
    StringFields(job);
    NumberFields(job);
    ClashingField(job, "seq");
  }

  /** A command is one line. */
  lemma CommandIsOneLine(job: Job)
    requires Plain(job.req.output)
    ensures '\n' !in Encode(job)
  {
    hide Signed;
    SignedHasNoQuote(job.seqNo);
    SignedHasNoQuote(job.req.pageStart);
    SignedHasNoQuote(job.req.pageEnd);
    assert '\n' !in FromSeqNo(job);
    assert '\n' !in FromPageStart(job);
    assert '\n' !in FromPageEnd(job);
    PlainIsOneLine(job.req.output);
    NewlineFreeJoin(job.req.output, FromPageEnd(job));
  }

  lemma NewlineFreeJoin(output: string, rest: string)
    requires '\n' !in output && '\n' !in rest
    ensures '\n' !in "{\"cmd\":\"render\",\"output\":\"" + output + "\",\"page_end\"" + rest
  {
  }
}
