/** From values through lines and fragments back to values: what the protocol's pipes may be taken to carry. */
module Wire {
  import opened Basics
  import opened PoolProtocol
  import opened Framing
  import Command = CommandWire
  import Answers = ReplyWire

  /** The commands that survive the key search: see CommandWire.CommandRoundTrip. */
  ghost predicate Sendable(job: Job) {
    && Command.Plain(job.req.output)
    && Command.Readable(job, "page_end", job.req.pageEnd)
    && Command.Readable(job, "page_start", job.req.pageStart)
    && Command.Readable(job, "seq", job.seqNo)
  }

  function CommandLines(jobs: seq<Job>): seq<string>
    requires forall job <- jobs :: Command.Plain(job.req.output)
  {
    seq(|jobs|, i requires 0 <= i < |jobs| => Command.Encode(jobs[i]))
  }

  function ReplyLines(replies: seq<Reply>): seq<string> {
    seq(|replies|, i requires 0 <= i < |replies| => Answers.Encode(replies[i]))
  }

  function Parsed(lines: seq<string>): seq<Line> {
    seq(|lines|, i requires 0 <= i < |lines| => Command.ParseLine(lines[i]))
  }

  function Decoded(lines: seq<string>): seq<Option<Reply>> {
    seq(|lines|, i requires 0 <= i < |lines| => Answers.Decode(lines[i]))
  }

  /** Sendable commands arrive as they were sent, in order, however the pipe cuts them up; and only those do. */
  lemma CommandsArrive(jobs: seq<Job>, fragments: seq<string>)
    requires forall job <- jobs :: Command.Plain(job.req.output)
    requires Joined(fragments) == Stream(CommandLines(jobs))
    ensures var (lines, rest) := Drained("", fragments);
      && rest == ""
      && |lines| == |jobs|
      && (Parsed(lines) == seq(|jobs|, i requires 0 <= i < |jobs| => Render(jobs[i])) <==> forall job <- jobs :: Sendable(job))
  {
    hide Command.Encode, Command.ParseLine;
    var lines := CommandLines(jobs);
    forall line | line in lines ensures '\n' !in line {
      var i :| 0 <= i < |lines| && lines[i] == line;
      Command.CommandIsOneLine(jobs[i]);
    }
    assert Stream(lines) + "" == Stream(lines);
    FramingRoundTrip(lines, "", fragments);
    forall i | 0 <= i < |jobs| ensures Parsed(lines)[i] == Render(jobs[i]) <==> Sendable(jobs[i]) {
      Command.CommandRoundTrip(jobs[i]);
    }
    var sent := seq(|jobs|, i requires 0 <= i < |jobs| => Render(jobs[i]));
    assert Parsed(lines) == sent <==> forall i :: 0 <= i < |jobs| ==> Parsed(lines)[i] == sent[i];
    assert (forall job <- jobs :: Sendable(job)) <==> forall i :: 0 <= i < |jobs| ==> Sendable(jobs[i]);
  }

  /** Replies arrive one for one; those with clean text as they were sent, the others as lines to be dropped. */
  lemma RepliesArrive(replies: seq<Reply>, fragments: seq<string>)
    requires Joined(fragments) == Stream(ReplyLines(replies))
    ensures var (lines, rest) := Drained("", fragments);
      && rest == ""
      && Decoded(lines) == seq(|replies|, i requires 0 <= i < |replies| =>
           if Answers.Clean(Answers.TextIn(replies[i])) then Some(replies[i]) else None)
  {
    hide Answers.Encode, Answers.Decode;
    var lines := ReplyLines(replies);
    forall line | line in lines ensures '\n' !in line {
      var i :| 0 <= i < |lines| && lines[i] == line;
      Answers.ReplyIsOneLine(replies[i]);
    }
    assert Stream(lines) + "" == Stream(lines);
    FramingRoundTrip(lines, "", fragments);
    forall i | 0 <= i < |replies|
      ensures Decoded(lines)[i] == if Answers.Clean(Answers.TextIn(replies[i])) then Some(replies[i]) else None
    {
      Answers.ReplyRoundTrip(replies[i]);
    }
  }
}
