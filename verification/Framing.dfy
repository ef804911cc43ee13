/** Lines over a pipe or socket: writes that may be partial, reads that may return any fragment. */
module Framing {
  import opened Basics

  const READ_SIZE: nat := 4096

  /** What the kernel makes of one read or write. Moved(0) is the end of the stream. */
  datatype Io = Moved(n: nat) | Interrupted | WouldBlock | Failed

  // ---------------------------------------------------------------- lines of a text

  function NewlineAt(s: string): (i: nat)
    ensures i <= |s| && '\n' !in s[..i]
    ensures i < |s| ==> s[i] == '\n'
    ensures i < |s| <==> '\n' in s
  {
    if s == "" || s[0] == '\n' then 0 else NewlineAt(s[1..]) + 1
  }

  /** The newline-terminated lines of a text, without their newlines. */
  function Lines(s: string): seq<string>
    decreases |s|
  {
    var i := NewlineAt(s);
    if i == |s| then [] else [s[..i]] + Lines(s[i + 1..])
  }

  /** What follows the last newline. */
  function Rest(s: string): (r: string)
    ensures '\n' !in r
    decreases |s|
  {
    var i := NewlineAt(s);
    if i == |s| then s else Rest(s[i + 1..])
  }

  /** A line as it is put on the wire. */
  function Terminated(line: string): string {
    if line == "" || line[|line| - 1] != '\n' then line + "\n" else line
  }

  function Stream(lines: seq<string>): string {
    if lines == [] then "" else Terminated(lines[0]) + Stream(lines[1..])
  }

  function Joined(fragments: seq<string>): string {
    if fragments == [] then "" else fragments[0] + Joined(fragments[1..])
  }

  ghost predicate SingleLines(lines: seq<string>) {
    forall line <- lines :: '\n' !in line
  }

  lemma {:induction false} NewlineFoundAt(line: string, tail: string)
    requires '\n' !in line
    ensures NewlineAt(line + "\n" + tail) == |line|
  {
    if line != "" {
      NewlineFoundAt(line[1..], tail);
      assert (line + "\n" + tail)[1..] == line[1..] + "\n" + tail;
    }
  }

  lemma FirstLine(line: string, tail: string)
    requires '\n' !in line
    ensures Lines(line + "\n" + tail) == [line] + Lines(tail)
    ensures Rest(line + "\n" + tail) == Rest(tail)
  {
    hide Lines, Rest, NewlineAt;
    var s := line + "\n" + tail;
    NewlineFoundAt(line, tail);
    LinesStep(s);
    assert s[..|line|] == line && s[|line| + 1..] == tail;
  }

  lemma LinesStep(s: string)
    requires '\n' in s
    ensures Lines(s) == [s[..NewlineAt(s)]] + Lines(s[NewlineAt(s) + 1..])
    ensures Rest(s) == Rest(s[NewlineAt(s) + 1..])
  {
    hide NewlineAt;
  }

  lemma NoLines(s: string)
    requires '\n' !in s
    ensures Lines(s) == [] && Rest(s) == s
  {
  }

  /** Splitting in two goes: the second continues from what the first left over. */
  lemma {:induction false} LinesJoin(a: string, b: string)
    ensures Lines(a + b) == Lines(a) + Lines(Rest(a) + b)
    ensures Rest(a + b) == Rest(Rest(a) + b)
    decreases |a|
  {
    hide Lines, Rest, NewlineAt;
    var i := NewlineAt(a);
    if i == |a| {
      NoLines(a);
    } else {
      LinesStep(a);
      var line, tail := a[..i], a[i + 1..];
      assert a + b == line + "\n" + (tail + b);
      FirstLine(line, tail + b);
      LinesJoin(tail, b);
    }
  }

  lemma StreamPrepend(line: string, lines: seq<string>, rest: string)
    requires '\n' !in line
    ensures Stream([line] + lines) + rest == line + "\n" + (Stream(lines) + rest)
  {
  }

  lemma EmptyStream(rest: string)
    ensures SingleLines([]) && Stream([]) + rest == rest
  {
  }

  lemma SingleLinesPrepend(line: string, lines: seq<string>)
    requires '\n' !in line && SingleLines(lines)
    ensures SingleLines([line] + lines)
  {
  }

  /** A text is its lines and what is left over. */
  lemma {:induction false} LinesRebuild(s: string)
    ensures SingleLines(Lines(s))
    ensures Stream(Lines(s)) + Rest(s) == s
    decreases |s|
  {
    hide Stream, Terminated, SingleLines, Lines, Rest, NewlineAt;
    var i := NewlineAt(s);
    if i < |s| {
      LinesStep(s);
      var tail := s[i + 1..];
      LinesRebuild(tail);
      StreamPrepend(s[..i], Lines(tail), Rest(tail));
      SingleLinesPrepend(s[..i], Lines(tail));
      assert s == s[..i] + "\n" + tail;
    } else {
      NoLines(s);
      EmptyStream(s);
    }
  }

  /** And no other lines and leftover make the same text. */
  lemma {:induction false} LinesUnique(lines: seq<string>, rest: string)
    requires SingleLines(lines) && '\n' !in rest
    ensures Lines(Stream(lines) + rest) == lines && Rest(Stream(lines) + rest) == rest
  {
    hide Lines, Rest;
    if lines == [] {
      assert Stream(lines) + rest == rest;
      NoLines(rest);
    } else {
      LinesUnique(lines[1..], rest);
      assert lines == [lines[0]] + lines[1..];
      StreamPrepend(lines[0], lines[1..], rest);
      FirstLine(lines[0], Stream(lines[1..]) + rest);
    }
  }

  // ---------------------------------------------------------------- writing

  /** An output descriptor; script is how the kernel will treat the next writes. */
  class Sink {
    var script: seq<Io>
    var written: string

    constructor (script: seq<Io>)
      ensures this.script == script && written == ""
    {
      this.script, written := script, "";
    }

    method Write(data: string) returns (r: Io)
      requires data != ""
      modifies this
      ensures old(script) != [] ==> script == old(script)[1..]
      ensures old(script) == [] ==> script == [] && r == Failed
      ensures r.Moved? ==> r.n <= |data| && written == old(written) + data[..r.n]
      ensures !r.Moved? ==> written == old(written)
    {
      if script == [] {
        return Failed;
      }
      r, script := script[0], script[1..];
      if r.Moved? {
        r := Moved(Min(r.n, |data|));
        written := written + data[..r.n];
      }
    }
  }

  /** However the writes are cut and interrupted, success means the whole line went out, failure a proper part of it. */
  method WriteLine(fd: Sink, line: string) returns (ok: bool)
    modifies fd
    ensures ok ==> fd.written == old(fd.written) + Terminated(line)
    ensures !ok ==> exists k :: 0 <= k < |Terminated(line)| && fd.written == old(fd.written) + Terminated(line)[..k]
  {
    var buf := line;
    if buf == "" || buf[|buf| - 1] != '\n' {
      buf := buf + "\n";
    }
    var p := 0;
    while p < |buf|
      invariant 0 <= p <= |buf| && buf == Terminated(line)
      invariant fd.written == old(fd.written) + buf[..p]
      decreases |fd.script|, |buf| - p
    {
      var r := fd.Write(buf[p..]);
      if r.Interrupted? {
        continue;
      }
      if !r.Moved? || r.n == 0 {
        return false;
      }
      assert buf[..p] + buf[p..][..r.n] == buf[..p + r.n];
      p := p + r.n;
    }
    assert buf[..p] == buf;
    return true;
  }

  // ---------------------------------------------------------------- reading

  /** An input descriptor; incoming is what the other end has sent or will send. */
  class Source {
    var script: seq<Io>
    var incoming: string

    constructor (script: seq<Io>, incoming: string)
      ensures this.script == script && this.incoming == incoming
    {
      this.script, this.incoming := script, incoming;
    }

    method Read() returns (r: Io, data: string)
      modifies this
      ensures old(script) != [] ==> script == old(script)[1..]
      ensures old(script) == [] ==> script == [] && r == Failed
      ensures old(script) != [] ==>
        r == if old(script)[0].Moved? then Moved(Min(Min(old(script)[0].n, READ_SIZE), |old(incoming)|)) else old(script)[0]
      ensures |data| == if r.Moved? then r.n else 0
      ensures old(incoming) == data + incoming
    {
      if script == [] {
        return Failed, "";
      }
      r, data, script := script[0], "", script[1..];
      if r.Moved? {
        var n := Min(Min(r.n, READ_SIZE), |incoming|);
        r, data, incoming := Moved(n), incoming[..n], incoming[n..];
      }
    }
  }

  /**
   How much one drain has taken off in the end when it has taken got and n characters wait, and
   whether the stream stays open: a full read is followed by another one, a short read or nothing
   to read ends the drain, and only the end of the stream or an error closes it.
   */
  function TakenAfter(got: nat, script: seq<Io>, n: nat): (r: (nat, bool))
    ensures got <= r.0 <= got + n
    decreases |script|
  {
    if script == [] || script[0].Failed? then (got, false)
    else if script[0].WouldBlock? then (got, true)
    else if script[0].Interrupted? then TakenAfter(got, script[1..], n)
    else
      var k := Min(Min(script[0].n, READ_SIZE), n);
      if k == 0 then (got, false)
      else if k < READ_SIZE then (got + k, true)
      else TakenAfter(got + k, script[1..], n - k)
  }

  lemma TakenStep(got: nat, script: seq<Io>, n: nat)
    ensures script == [] || script[0].Failed? ==> TakenAfter(got, script, n) == (got, false)
    ensures script != [] && script[0].WouldBlock? ==> TakenAfter(got, script, n) == (got, true)
    ensures script != [] && script[0].Interrupted? ==> TakenAfter(got, script, n) == TakenAfter(got, script[1..], n)
    ensures script != [] && script[0].Moved? ==>
      var k := Min(Min(script[0].n, READ_SIZE), n);
      TakenAfter(got, script, n) ==
        if k == 0 then (got, false) else if k < READ_SIZE then (got + k, true) else TakenAfter(got + k, script[1..], n - k)
  {
  }

  class LineAccumulator {
    var buf: string

    ghost predicate Valid()
      reads this
    {
      '\n' !in buf
    }

    constructor ()
      ensures Valid() && buf == ""
    {
      buf := "";
    }

    /** Appends what was read and takes the complete lines off the buffer. */
    method Append(data: string) returns (lines: seq<string>)
      modifies this
      ensures lines == Lines(old(buf) + data) && buf == Rest(old(buf) + data) && Valid()
    {
      hide Lines, Rest, NewlineAt;
      buf := buf + data;
      lines := [];
      var pos := NewlineAt(buf);
      while pos < |buf|
        invariant pos == NewlineAt(buf)
        invariant lines + Lines(buf) == Lines(old(buf) + data)
        invariant Rest(buf) == Rest(old(buf) + data)
        decreases |buf|
      {
        LinesStep(buf);
        lines := lines + [buf[..pos]];
        buf := buf[pos + 1..];
        pos := NewlineAt(buf);
      }
      NoLines(buf);
    }

    /**
     Reads until a short read, the end, or an error. The lines put out are those of the old buffer
     followed by whatever was read, and the new buffer is what is left over of both.
     */
    method Drain(fd: Source) returns (open: bool, lines: seq<string>)
      requires Valid()
      modifies this, fd
      ensures Valid()
      ensures var (n, o) := TakenAfter(0, old(fd.script), |old(fd.incoming)|);
        && open == o
        && fd.incoming == old(fd.incoming)[n..]
        && SplitSoFar(old(buf) + old(fd.incoming)[..n], lines, buf)
    {
      hide Lines, Rest, NewlineAt, TakenAfter, SplitSoFar;
      lines := [];
      ghost var start, all, taken, n := buf, fd.incoming, TakenAfter(0, fd.script, |fd.incoming|), 0;
      NothingReadYet(start);
      assert start + all[..0] == start;
      while true
        invariant Valid()
        invariant 0 <= n <= |all| && fd.incoming == all[n..]
        invariant taken == TakenAfter(n, fd.script, |fd.incoming|)
        invariant SplitSoFar(start + all[..n], lines, buf)
        decreases |fd.script|
      {
        TakenStep(n, fd.script, |fd.incoming|);
        var r, data := fd.Read();
        if r.Moved? && r.n > 0 {
          ghost var before := buf;
          var more := Append(data);
          ReadMore(start, all, n, data, lines, before, more, buf);
          n := n + |data|;
          lines := lines + more;
          if r.n < READ_SIZE {
            return true, lines;
          }
        } else if r.Moved? {
          return false, lines;
        } else if r.WouldBlock? {
          return true, lines;
        } else if r.Failed? {
          return false, lines;
        }
      }
    }
  }

  /** These are the lines of the text, and this is what follows them. */
  ghost predicate SplitSoFar(text: string, lines: seq<string>, rest: string) {
    lines == Lines(text) && rest == Rest(text)
  }

  lemma NothingReadYet(buf: string)
    requires '\n' !in buf
    ensures SplitSoFar(buf, [], buf)
  {
    NoLines(buf);
  }

  lemma ReadMore(start: string, all: string, n: nat, data: string, lines: seq<string>, before: string, more: seq<string>, after: string)
    requires n + |data| <= |all| && data == all[n..n + |data|]
    requires SplitSoFar(start + all[..n], lines, before)
    requires more == Lines(before + data) && after == Rest(before + data)
    ensures SplitSoFar(start + all[..n + |data|], lines + more, after)
  {
    hide Lines, Rest;
    LinesJoin(start + all[..n], data);
    assert start + all[..n] + data == start + all[..n + |data|];
  }

  // ---------------------------------------------------------------- the round trip

  /** The lines that successive drains put out, one fragment each, starting from buf. */
  function Drained(buf: string, fragments: seq<string>): (seq<string>, string)
    decreases |fragments|
  {
    if fragments == [] then ([], buf)
    else
      var (lines, rest) := Drained(Rest(buf + fragments[0]), fragments[1..]);
      (Lines(buf + fragments[0]) + lines, rest)
  }

  /** Fragmentation does not matter. */
  lemma {:induction false} DrainedIsLines(buf: string, fragments: seq<string>)
    requires '\n' !in buf
    ensures Drained(buf, fragments) == (Lines(buf + Joined(fragments)), Rest(buf + Joined(fragments)))
    decreases |fragments|
  {
    hide Lines, Rest;
    if fragments == [] {
      assert buf + "" == buf;
      NoLines(buf);
    } else {
      var first, others := fragments[0], fragments[1..];
      DrainedIsLines(Rest(buf + first), others);
      LinesJoin(buf + first, Joined(others));
      assert buf + first + Joined(others) == buf + Joined(fragments);
    }
  }

  /**
   Single lines written one after the other, and read back in any fragments: once everything sent
   has arrived, the drains have put out exactly those lines, and what has arrived of a further
   line is in the buffer.
   */
  lemma FramingRoundTrip(lines: seq<string>, partial: string, fragments: seq<string>)
    requires SingleLines(lines) && '\n' !in partial
    requires Joined(fragments) == Stream(lines) + partial
    ensures Drained("", fragments) == (lines, partial)
  {
    DrainedIsLines("", fragments);
    assert "" + Joined(fragments) == Joined(fragments);
    LinesUnique(lines, partial);
  }

  /** At any earlier time they have put out the first few lines and hold part of the next. */
  lemma ReceivedIsAlwaysAPrefix(lines: seq<string>, fragments: seq<string>, later: string)
    requires SingleLines(lines) && Joined(fragments) + later == Stream(lines)
    ensures var (received, rest) := Drained("", fragments);
      received <= lines && rest + later == Stream(lines[|received|..])
  {
    var got := Joined(fragments);
    DrainedIsLines("", fragments);
    assert "" + got == got;
    LinesJoin(got, later);
    assert Stream(lines) + "" == Stream(lines);
    LinesUnique(lines, "");
    var received, rest := Lines(got), Rest(got);
    assert lines == received + Lines(rest + later);
    LinesRebuild(rest + later);
    assert Stream(lines[|received|..]) + "" == rest + later by {
      assert lines[|received|..] == Lines(rest + later);
    }
    assert rest + later == Stream(lines[|received|..]) + "";
    assert Stream(lines[|received|..]) + "" == Stream(lines[|received|..]);
  }

  /** A line with a newline inside comes out as several: such a line is not transmitted. */
  lemma OnlySingleLinesSurvive(line: string)
    ensures Lines(Terminated(line)) == [line] <==> '\n' !in line
  {
    if '\n' !in line {
      assert Stream([line]) + "" == Terminated(line) by {
        assert [line][1..] == [];
      }
      LinesUnique([line], "");
    } else {
      LinesRebuild(Terminated(line));
    }
  }
}
