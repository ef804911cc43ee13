/** Replies as lines of JSON, written by the workers and decoded by the orchestrator. */
module ReplyWire {
  import opened Basics
  import opened Decimals
  import opened PoolProtocol

  const QUOTE := "\""

  // ---------------------------------------------------------------- the workers' encoder

  function EscapeChar(c: char): string {
    if c == '"' then "\\\""
    else if c == '\\' then "\\\\"
    else if c == '\n' then "\\n"
    else [c]
  }

  function Escape(s: string): string {
    if s == "" then "" else EscapeChar(s[0]) + Escape(s[1..])
  }

  method EscapeJson(s: string) returns (out: string)
    ensures out == Escape(s)
  {
    hide Escape, EscapeChar;
    out := "";
    assert s[0..] == s;
    for i := 0 to |s|
      invariant out + Escape(s[i..]) == Escape(s)
    {
      EscapeStep(s, i);
      out := out + EscapeChar(s[i]);
    }
    EscapeNothing(s[|s|..]);
  }

  lemma EscapeStep(s: string, i: nat)
    requires i < |s|
    ensures Escape(s[i..]) == EscapeChar(s[i]) + Escape(s[i + 1..])
  {
    assert s[i..][1..] == s[i + 1..];
  }

  lemma EscapeNothing(s: string)
    requires s == ""
    ensures Escape(s) == ""
  {
  }

  function Field(key: string, value: string): string {
    QUOTE + key + "\":" + value
  }

  function Text(s: string): string {
    QUOTE + Escape(s) + QUOTE
  }

  function Encode(reply: Reply): string {
    match reply
    case Done(seqNo, output) =>
      "{" + (Field("seq", Signed(seqNo)) + ("," + (Field("status", Text("ok")) + ("," + (Field("output", Text(output)) + "}")))))
    case Failed(seqNo, code, detail) =>
      "{" + (Field("seq", Signed(seqNo)) + ("," + (Field("status", Text("error")) + ("," +
        (Field("code", Signed(code)) + ("," + (Field("detail", Text(detail)) + "}")))))))
  }

  // ---------------------------------------------------------------- the orchestrator's decoder

  /** The two-character escapes of RFC 8259, section 7. */
  function Unescaped(c: char): Option<char> {
    match c
    case '"' => Some('"')
    case '\\' => Some('\\')
    case '/' => Some('/')
    case 'b' => Some(8 as char)
    case 'f' => Some(12 as char)
    case 'n' => Some('\n')
    case 'r' => Some('\r')
    case 't' => Some('\t')
    case _ => None
  }

  /** The string that ends at the first quote not escaped, and what follows; control characters are not allowed in it. */
  function ReadString(s: string): (r: Option<(string, string)>)
    ensures r.Some? ==> |r.value.1| < |s|
  {
    if s == "" || s[0] < ' ' then None
    else if s[0] == '"' then Some(("", s[1..]))
    else if s[0] != '\\' then Then(s[0], ReadString(s[1..]))
    else if |s| < 2 then None
    else match Unescaped(s[1])
      case None => None
      case Some(c) => Then(c, ReadString(s[2..]))
  }

  function Then(c: char, r: Option<(string, string)>): Option<(string, string)> {
    match r
    case None => None
    case Some(found) => Some(([c] + found.0, found.1))
  }

  datatype Value = Str(text: string) | Num(n: int)

  /** A whole number: a minus sign or none, no leading zero. */
  function ReadNumber(s: string): (r: Option<(int, string)>)
    ensures r.Some? ==> |r.value.1| < |s|
  {
    var negative := s != "" && s[0] == '-';
    var u := if negative then s[1..] else s;
    var k := DigitsAt(u);
    if k == 0 || (k > 1 && u[0] == '0') then None
    else
      var v: int := Decimals.Value(u[..k]);
      Some((if negative then -v else v, u[k..]))
  }

  function ReadValue(s: string): (r: Option<(Value, string)>)
    ensures r.Some? ==> |r.value.1| < |s|
  {
    if s != "" && s[0] == '"' then
      match ReadString(s[1..])
      case None => None
      case Some(found) => Some((Str(found.0), found.1))
    else
      match ReadNumber(s)
      case None => None
      case Some(found) => Some((Num(found.0), found.1))
  }

  /** The members of an object, up to its closing brace at the very end. */
  function ReadMembers(s: string): Option<seq<(string, Value)>>
    decreases |s|
  {
    if s == "" || s[0] != '"' then None
    else match ReadString(s[1..])
      case None => None
      case Some((key, after)) =>
        if after == "" || after[0] != ':' then None
        else match ReadValue(after[1..])
          case None => None
          case Some((v, rest)) =>
            if rest == "}" then Some([(key, v)])
            else if rest == "" || rest[0] != ',' then None
            else Prepend((key, v), ReadMembers(rest[1..]))
  }

  function Prepend(m: (string, Value), r: Option<seq<(string, Value)>>): Option<seq<(string, Value)>> {
    match r
    case None => None
    case Some(ms) => Some([m] + ms)
  }

  function ReadObject(line: string): Option<seq<(string, Value)>> {
    if line == "" || line[0] != '{' then None else ReadMembers(line[1..])
  }

  /** The last member with the key. */
  function Get(ms: seq<(string, Value)>, key: string): Option<Value> {
    if ms == [] then None
    else if ms[|ms| - 1].0 == key then Some(ms[|ms| - 1].1)
    else Get(ms[..|ms| - 1], key)
  }

  function NumberOr(v: Option<Value>, default: int): int {
    if v.Some? && v.value.Num? then v.value.n else default
  }

  function TextOf(v: Option<Value>): string {
    if v.Some? && v.value.Str? then v.value.text else ""
  }

  /** A line that is no JSON object is dropped. */
  function Decode(line: string): Option<Reply> {
    match ReadObject(line)
    case None => None
    case Some(ms) =>
      var seqNo := NumberOr(Get(ms, "seq"), 0);
      Some(if TextOf(Get(ms, "status")) == "ok" then Done(seqNo, TextOf(Get(ms, "output")))
           else Failed(seqNo, NumberOr(Get(ms, "code"), EXIT_RENDER_FAILURE), TextOf(Get(ms, "detail"))))
  }

  // ---------------------------------------------------------------- the round trip

  /** The only control character is the newline. */
  predicate Clean(s: string) {
    forall i :: 0 <= i < |s| ==> s[i] >= ' ' || s[i] == '\n'
  }

  lemma CleanStep(s: string)
    requires s != ""
    ensures Clean(s) <==> (s[0] >= ' ' || s[0] == '\n') && Clean(s[1..])
  {
  }

  /** Decoding undoes escaping for clean text, and for no other. */
  lemma {:induction false} ReadEscaped(s: string, rest: string)
    ensures ReadString(Escape(s) + (QUOTE + rest)) == if Clean(s) then Some((s, rest)) else None
  {
    var tail := QUOTE + rest;
    if s == "" {
      assert Escape(s) + tail == tail && tail[1..] == rest;
    } else {
      var e, more := EscapeChar(s[0]), Escape(s[1..]) + tail;
      assert Escape(s) + tail == e + more;
      assert (e + more)[|e|..] == more;
      ReadEscaped(s[1..], rest);
      CleanStep(s);
      assert s == [s[0]] + s[1..];
    }
  }

  /** Escaped text has no newline in it. */
  lemma {:induction false} EscapedIsOneLine(s: string)
    ensures '\n' !in Escape(s)
  {
    if s != "" {
      EscapedIsOneLine(s[1..]);
    }
  }

  lemma NumberReads(n: int, rest: string)
    requires rest != "" && !IsDigit(rest[0])
    ensures ReadValue(Signed(n) + rest) == Some((Num(n), rest))
  {
    hide Decimals.Value, Decimal, DigitsAt;
    var m := if n < 0 then -n else n;
    var u := Decimal(m) + rest;
    assert IsDigit(Decimal(m)[0]) && u[0] == Decimal(m)[0];
    DecimalThenMore(m, rest);
    NoLeadingZero(m);
    if n < 0 {
      assert Signed(n) + rest == "-" + u && ("-" + u)[1..] == u;
    }
  }

  lemma {:induction false} NoLeadingZero(n: nat)
    ensures |Decimal(n)| > 1 ==> Decimal(n)[0] != '0'
    ensures n > 0 ==> Decimal(n)[0] != '0'
  {
    if n >= 10 {
      NoLeadingZero(n / 10);
    }
  }

  lemma TextReads(s: string, rest: string)
    ensures ReadValue(Text(s) + rest) == if Clean(s) then Some((Str(s), rest)) else None
  {
    var t := Escape(s) + (QUOTE + rest);
    assert Text(s) + rest == QUOTE + t && (QUOTE + t)[1..] == t;
    ReadEscaped(s, rest);
  }

  /** Keys are spelled as they are. */
  predicate Bare(key: string) {
    forall i :: 0 <= i < |key| ==> key[i] >= ' ' && key[i] != '"' && key[i] != '\\'
  }

  lemma {:induction false} BareReads(key: string, rest: string)
    requires Bare(key)
    ensures ReadString(key + (QUOTE + rest)) == Some((key, rest))
  {
    var s := key + (QUOTE + rest);
    if key == "" {
      assert s[1..] == rest;
    } else {
      assert s[1..] == key[1..] + (QUOTE + rest);
      BareReads(key[1..], rest);
      assert key == [key[0]] + key[1..];
    }
  }

  /** One member: its key, then whatever its value text reads as. */
  lemma MemberReads(key: string, text: string, end: string, v: Option<Value>)
    requires Bare(key) && end != ""
    requires ReadValue(text + end) == match v case None => None case Some(x) => Some((x, end))
    ensures ReadMembers(Field(key, text) + end) ==
      match v
      case None => None
      case Some(x) =>
        if end == "}" then Some([(key, x)])
        else if end[0] == ',' then Prepend((key, x), ReadMembers(end[1..]))
        else None
  {
    hide ReadString, ReadValue;
    var s := Field(key, text) + end;
    var after := ":" + (text + end);
    assert s[1..] == key + (QUOTE + after);
    assert after[1..] == text + end;
    BareReads(key, after);
  }

  function TextIn(reply: Reply): string {
    if reply.Done? then reply.output else reply.detail
  }

  function Members(reply: Reply): seq<(string, Value)> {
    match reply
    case Done(seqNo, output) => [("seq", Num(seqNo)), ("status", Str("ok")), ("output", Str(output))]
    case Failed(seqNo, code, detail) =>
      [("seq", Num(seqNo)), ("status", Str("error")), ("code", Num(code)), ("detail", Str(detail))]
  }

  lemma NumberMember(key: string, n: int, rest: string)
    requires Bare(key)
    ensures ReadMembers(Field(key, Signed(n)) + ("," + rest)) == Prepend((key, Num(n)), ReadMembers(rest))
  {
    hide ReadMembers, ReadValue, Field, Signed;
    NumberReads(n, "," + rest);
    MemberReads(key, Signed(n), "," + rest, Some(Num(n)));
    assert ("," + rest)[0] == ',' && ("," + rest)[1..] == rest;
  }

  lemma TextMember(key: string, text: string, rest: string)
    requires Bare(key) && Clean(text)
    ensures ReadMembers(Field(key, Text(text)) + ("," + rest)) == Prepend((key, Str(text)), ReadMembers(rest))
  {
    hide ReadMembers, ReadValue, Field, Text;
    TextReads(text, "," + rest);
    MemberReads(key, Text(text), "," + rest, Some(Str(text)));
    assert ("," + rest)[0] == ',' && ("," + rest)[1..] == rest;
  }

  lemma LastMember(key: string, text: string)
    requires Bare(key)
    ensures ReadMembers(Field(key, Text(text)) + "}") == if Clean(text) then Some([(key, Str(text))]) else None
  {
    hide ReadMembers, ReadValue, Field, Text;
    TextReads(text, "}");
    MemberReads(key, Text(text), "}", if Clean(text) then Some(Str(text)) else None);
  }

  lemma KeysAreBare()
    ensures Bare("seq") && Bare("status") && Bare("output") && Bare("code") && Bare("detail")
    ensures Clean("ok") && Clean("error")
  {
  }

  lemma DoneReads(seqNo: int, output: string)
    ensures ReadObject(Encode(Done(seqNo, output))) == if Clean(output) then Some(Members(Done(seqNo, output))) else None
  {
    hide ReadMembers, Field, Text, Signed, Clean, Bare;
    KeysAreBare();
    LastMember("output", output);
    var third := Field("output", Text(output)) + "}";
    TextMember("status", "ok", third);
    var second := Field("status", Text("ok")) + ("," + third);
    NumberMember("seq", seqNo, second);
    OpenBrace(Field("seq", Signed(seqNo)) + ("," + second));
    var ms := Members(Done(seqNo, output));
    assert [ms[0]] + ([ms[1]] + [ms[2]]) == ms;
  }

  lemma FailedReads(seqNo: int, code: int, detail: string)
    ensures ReadObject(Encode(Failed(seqNo, code, detail))) == if Clean(detail) then Some(Members(Failed(seqNo, code, detail))) else None
  {
    hide ReadMembers, Field, Text, Signed, Clean, Bare;
    KeysAreBare();
    LastMember("detail", detail);
    var fourth := Field("detail", Text(detail)) + "}";
    NumberMember("code", code, fourth);
    var third := Field("code", Signed(code)) + ("," + fourth);
    TextMember("status", "error", third);
    var second := Field("status", Text("error")) + ("," + third);
    NumberMember("seq", seqNo, second);
    OpenBrace(Field("seq", Signed(seqNo)) + ("," + second));
    var ms := Members(Failed(seqNo, code, detail));
    assert [ms[0]] + ([ms[1]] + ([ms[2]] + [ms[3]])) == ms;
  }

  lemma OpenBrace(members: string)
    ensures ReadObject("{" + members) == ReadMembers(members)
  {
  }

  lemma GetOfThree(a: (string, Value), b: (string, Value), c: (string, Value), key: string)
    ensures Get([a, b, c], key) ==
      if c.0 == key then Some(c.1) else if b.0 == key then Some(b.1) else if a.0 == key then Some(a.1) else None
  {
    assert [a, b, c][..2] == [a, b] && [a, b][..1] == [a];
    assert [a][..0] == [];
    assert Get([a], key) == if a.0 == key then Some(a.1) else None;
    assert Get([a, b], key) == if b.0 == key then Some(b.1) else Get([a], key);
  }

  lemma MembersGet(reply: Reply)
    ensures var ms := Members(reply);
      && Get(ms, "seq") == Some(Num(reply.seqNo))
      && Get(ms, "status") == Some(Str(if reply.Done? then "ok" else "error"))
      && (reply.Done? ==> Get(ms, "output") == Some(Str(reply.output)))
      && (reply.Failed? ==> Get(ms, "code") == Some(Num(reply.code)) && Get(ms, "detail") == Some(Str(reply.detail)))
  {
    var ms := Members(reply);
    assert reply.Failed? ==> ms[..3] == [ms[0], ms[1], ms[2]];
    GetOfThree(ms[0], ms[1], ms[2], "seq");
    GetOfThree(ms[0], ms[1], ms[2], "status");
    GetOfThree(ms[0], ms[1], ms[2], "code");
  }

  /**
   A reply is decoded to itself when the only control characters in its text are newlines;
   any other control character makes the whole line one that the orchestrator drops, and its
   caller waits for the timeout.
   */
  lemma ReplyRoundTrip(reply: Reply)
    ensures Decode(Encode(reply)) == if Clean(TextIn(reply)) then Some(reply) else None
  {
    hide ReadObject, Get, Encode, Members;
    match reply {
      case Done(seqNo, output) => DoneReads(seqNo, output);
      case Failed(seqNo, code, detail) => FailedReads(seqNo, code, detail);
    }
    MembersGet(reply);
  }

  /** A reply is one line. */
  lemma ReplyIsOneLine(reply: Reply)
    ensures '\n' !in Encode(reply)
  {
    hide Escape, Signed, Field, Text;
    TextFieldIsOneLine("output", TextIn(reply));
    TextFieldIsOneLine("detail", TextIn(reply));
    TextFieldIsOneLine("status", "ok");
    TextFieldIsOneLine("status", "error");
    NumberFieldIsOneLine("seq", reply.seqNo);
    if reply.Failed? {
      NumberFieldIsOneLine("code", reply.code);
    }
  }

  lemma TextFieldIsOneLine(key: string, text: string)
    requires '\n' !in key
    ensures '\n' !in Field(key, Text(text))
  {
    EscapedIsOneLine(text);
  }

  lemma NumberFieldIsOneLine(key: string, n: int)
    requires '\n' !in key
    ensures '\n' !in Field(key, Signed(n))
  {
  }
}
