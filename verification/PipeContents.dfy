/**
 What the pool's pipes really carry: every command of a conversion can be read back, and every
 success reply decoded, so the protocol may be taken to pass them as values.
 */
module PipeContents {
  import opened Basics
  import opened Types
  import opened PoolProtocol
  import opened Convert
  import Protocol = ForkProtocol
  import Demux = ReplyDemux
  import Command = CommandWire
  import Answers = ReplyWire
  import Wire

  /** A scratch directory and a spelling of plain characters. */
  ghost predicate PlainNames(name: Spelling) {
    Command.Plain(name.dir) && forall index :: Command.Plain(name.index(index))
  }

  predicate IsInt(n: int) {
    Command.MIN_INT <= n <= Command.MAX_INT
  }

  lemma PlainJoin(a: string, b: string)
    requires Command.Plain(a) && Command.Plain(b)
    ensures Command.Plain(a + b)
  {
  }

  lemma OutputIsPlain(name: Spelling, index: real)
    requires PlainNames(name)
    ensures Command.Plain(OutputPath(name, index))
  {
    assert Command.Plain("/chunk-") && Command.Plain(".pdf");
    PlainJoin(name.dir, "/chunk-");
    PlainJoin(name.dir + "/chunk-", name.index(index));
    PlainJoin(name.dir + "/chunk-" + name.index(index), ".pdf");
  }

  /** A file name ends in f, which no key of a command does. */
  lemma OutputIsNoKey(name: Spelling, index: real)
    ensures OutputPath(name, index) !in ["page_end", "page_start", "seq"]
  {
    var path := OutputPath(name, index);
    assert path[|path| - 1] == 'f';
  }

  /** The path the orchestrator builds for a chunk never clashes with a key: the worker reads back the command it was sent. */
  lemma RequestIsSendable(name: Spelling, chunk: Chunk, seqNo: int)
    requires PlainNames(name) && IsInt(seqNo) && IsInt(chunk.pageStart) && IsInt(chunk.pageEnd)
    ensures Wire.Sendable(Job(seqNo, RequestFor(name, chunk)))
  {
    hide OutputPath;
    OutputIsPlain(name, chunk.index);
    OutputIsNoKey(name, chunk.index);
    var path := OutputPath(name, chunk.index);
    assert path != "page_end" && path != "page_start" && path != "seq" by {
      var keys := ["page_end", "page_start", "seq"];
      assert keys[0] in keys && keys[1] in keys && keys[2] in keys;
    }
  }

  lemma PlainIsClean(s: string)
    requires Command.Plain(s)
    ensures Answers.Clean(s)
  {
    forall i | 0 <= i < |s| ensures s[i] >= ' ' {
      assert Command.IsPlain(s[i]);
    }
  }

  /** Every call is for a chunk of the plan, and all numbers fit a C int. */
  ghost predicate CallsFit(name: Spelling, chunks: seq<Chunk>, d: Demux.Demux) {
    && d.lastSeqNo <= Command.MAX_INT
    && (forall c <- chunks :: IsInt(c.pageStart) && IsInt(c.pageEnd))
    && CallsForPlan(name, chunks, d)
  }

  /**
   In every run of the protocol that serves a plan, every command ever written to the pipe is read
   back as it was sent, and every success reply waiting in the pipe is decoded as it was sent; a
   failure reply is when its detail has no control character but newlines.
   */
  lemma PipesCarryValues(
    name: Spelling, chunks: seq<Chunk>, children: nat, steps: seq<Protocol.Action>, s: Protocol.System)
    requires PlainNames(name) && CallsFit(name, chunks, s.demux)
    requires Protocol.Run(Protocol.Initial(children), steps, s)
    ensures forall job <- s.pool.submitted ::
      Wire.Sendable(job) && Command.ParseLine(Command.Encode(job)) == Render(job)
    ensures forall reply <- s.pool.stdout ::
      (reply.Done? || Answers.Clean(reply.detail)) ==> Answers.Decode(Answers.Encode(reply)) == Some(reply)
  {
    hide Protocol.Run, Wire.Sendable, Command.ParseLine, Command.Encode, Answers.Decode, Answers.Encode, RequestFor, PlainNames;
    forall job | job in s.pool.submitted
      ensures Wire.Sendable(job) && Command.Plain(job.req.output)
      ensures Command.ParseLine(Command.Encode(job)) == Render(job)
    {
      SubmittedIsSendable(name, chunks, children, steps, s, job);
      SendableRoundTrip(job);
    }
    forall reply | reply in s.pool.stdout && (reply.Done? || Answers.Clean(reply.detail))
      ensures Answers.Decode(Answers.Encode(reply)) == Some(reply)
    {
      if reply.Done? {
        var job := Protocol.ReplyOnPipe(children, steps, s, reply);
        SubmittedIsSendable(name, chunks, children, steps, s, job);
        SendableIsPlain(job);
        PlainIsClean(reply.output);
      }
      Answers.ReplyRoundTrip(reply);
    }
  }

  lemma SendableRoundTrip(job: Job)
    requires Wire.Sendable(job)
    ensures Command.Plain(job.req.output) && Command.ParseLine(Command.Encode(job)) == Render(job)
  {
    hide Command.ParseLine, Command.Encode;
    Command.CommandRoundTrip(job);
  }

  lemma SendableIsPlain(job: Job)
    requires Wire.Sendable(job)
    ensures Command.Plain(job.req.output)
  {
  }

  lemma SubmittedIsSendable(
    name: Spelling, chunks: seq<Chunk>, children: nat, steps: seq<Protocol.Action>, s: Protocol.System, job: Job)
    requires PlainNames(name) && CallsFit(name, chunks, s.demux)
    requires Protocol.Run(Protocol.Initial(children), steps, s) && job in s.pool.submitted
    ensures Wire.Sendable(job)
  {
    hide Protocol.Run, Wire.Sendable, RequestFor, PlainNames;
    var id := Protocol.SubmittedForACall(children, steps, s, job);
    var k: nat :| CallFor(name, chunks, s.demux, id, k);
    assert chunks[k] in chunks;
    RequestIsSendable(name, chunks[k], job.seqNo);
  }
}
