/**
 The orchestrator's end of the pool: callers with fresh sequence numbers, the map from sequence
 number to the caller's one-slot channel, and the goroutine that reads the replies.
 */
module ReplyDemux {
  import opened Basics
  import opened PoolProtocol

  datatype Message = FromWorker(reply: Reply) | EndOfOutput(seqNo: int)

  function Number(m: Message): int {
    match m
    case FromWorker(reply) => reply.seqNo
    case EndOfOutput(seqNo) => seqNo
  }

  // ---------------------------------------------------------------- the object, one critical section a method

  /** A channel of capacity one: a second send before a receive would block. */
  class Channel {
    var buffer: seq<Message>

    constructor ()
      ensures buffer == []
    {
      buffer := [];
    }

    method Send(m: Message)
      requires buffer == []
      modifies this
      ensures buffer == [m]
    {
      buffer := [m];
    }
  }

  /** What the mutex guards, as a value: the last number given out and the numbers with a channel. */
  datatype Table = Table(lastSeqNo: int, waiting: set<int>)

  function AfterNextSeqNo(t: Table): Table {
    t.(lastSeqNo := t.lastSeqNo + 1)
  }

  function AfterRegister(t: Table, s: int): Table {
    t.(waiting := t.waiting + {s})
  }

  function AfterUnregister(t: Table, s: int): Table {
    t.(waiting := t.waiting - {s})
  }

  /** What a reply line puts into the channels, by number. */
  function Delivered(t: Table, reply: Reply): map<int, seq<Message>> {
    if reply.seqNo in t.waiting then map[reply.seqNo := [FromWorker(reply)]] else map[]
  }

  /** What the end of the output puts into them. */
  function Ended(t: Table): map<int, seq<Message>> {
    map s | s in t.waiting :: [EndOfOutput(s)]
  }

  class ForkedPoolLeader {
    var seqNo: int
    var pending: map<int, Channel>

    /** Whatever is registered bears a number given out, and has an empty channel of its own. */
    ghost predicate Valid()
      reads this, pending.Values
    {
      && (forall s <- pending.Keys :: s <= seqNo && pending[s].buffer == [])
      && (forall s, t :: s in pending.Keys && t in pending.Keys && s != t ==> pending[s] != pending[t])
    }

    ghost function View(): Table
      reads this
    {
      Table(seqNo, pending.Keys)
    }

    constructor ()
      ensures Valid() && View() == Table(0, {})
    {
      seqNo, pending := 0, map[];
    }

    /** The number is greater than every number still registered, and than all given out before. */
    method NextSeqNo() returns (s: int)
      requires Valid()
      modifies this`seqNo
      ensures Valid() && View() == AfterNextSeqNo(old(View()))
      ensures s == View().lastSeqNo > old(seqNo)
      ensures forall t <- pending.Keys :: t < s
    {
      seqNo := seqNo + 1;
      s := seqNo;
    }

    method Register(s: int) returns (ch: Channel)
      requires Valid() && s <= seqNo
      modifies this`pending
      ensures Valid() && View() == AfterRegister(old(View()), s)
      ensures fresh(ch) && ch.buffer == [] && pending == old(pending)[s := ch]
    {
      ch := new Channel();
      pending := pending[s := ch];
    }

    method Unregister(s: int)
      requires Valid()
      modifies this`pending
      ensures Valid() && View() == AfterUnregister(old(View()), s)
      ensures forall t <- pending.Keys :: pending[t] == old(pending)[t]
    {
      pending := pending - {s};
    }

    /**
     One reply line: the channel registered under its number gets it and is forgotten; nothing
     else is touched, and a reply nobody waits for is dropped. The send cannot block.
     */
    method Deliver(reply: Reply) returns (known: bool)
      requires Valid()
      modifies this`pending, set s | s in pending && s == reply.seqNo :: pending[s]
      ensures Valid() && View() == AfterUnregister(old(View()), reply.seqNo)
      ensures known == (reply.seqNo in old(pending))
      ensures forall t <- pending.Keys :: pending[t] == old(pending)[t]
      ensures forall s <- Delivered(old(View()), reply).Keys ::
        old(pending)[s].buffer == Delivered(old(View()), reply)[s]
    {
      known := reply.seqNo in pending;
      if known {
        var ch := pending[reply.seqNo];
        pending := pending - {reply.seqNo};
        ch.Send(FromWorker(reply));
      }
    }

    /** Every caller still waiting gets exactly one end-of-output message; no send blocks. */
    method FailAllPending()
      requires Valid()
      modifies this`pending, pending.Values
      ensures Valid() && View() == Table(old(seqNo), {})
      ensures forall s <- Ended(old(View())).Keys :: old(pending)[s].buffer == Ended(old(View()))[s]
    {
      ghost var all := pending;
      while pending.Keys != {}
        modifies this`pending, all.Values
        invariant forall s <- pending.Keys :: s in all && pending[s] == all[s]
        invariant Valid()
        invariant forall s <- all.Keys - pending.Keys :: all[s].buffer == [EndOfOutput(s)]
        decreases |pending.Keys|
      {
        var s := AnyKey(pending);
        pending[s].Send(EndOfOutput(s));
        ghost var before := pending;
        pending := pending - {s};
        assert pending.Keys == before.Keys - {s};
      }
    }
  }

  // ---------------------------------------------------------------- the step system

  datatype Result = Got(message: Message) | TimedOut | WriteFailed

  /** How far a RenderChunk call has come. */
  datatype Stage = Numbered | Registered | Awaiting | Finishing(result: Result) | Returned(result: Result)

  /** delivered counts the messages ever sent to the call's channel. */
  datatype Call = Call(seqNo: int, req: Request, stage: Stage, channel: seq<Message>, delivered: nat)

  /** The reader goroutine: between lines, between taking a channel out of the map and sending, or done. */
  datatype Reader = Reading | Holding(id: nat, reply: Reply) | Stopped

  datatype Demux = Demux(lastSeqNo: int, calls: map<nat, Call>, pending: map<int, nat>, reader: Reader)

  datatype Action =
    | Start(id: nat, req: Request)
    | Register(id: nat)
    | Write(id: nat)
    | FailWrite(id: nat)
    | Receive(id: nat)
    | Timeout(id: nat)
    | Unregister(id: nat)
    | ReadReply(reply: Reply)
    | SendHeld
    | ReadEnd

  const IDLE := Demux(0, map[], map[], Reading)

  /** What the step needs of the orchestrator's own state. SendHeld needs no room in the channel: see HeldSendFits. */
  ghost predicate Enabled(d: Demux, a: Action) {
    match a
    case Start(id, _) => id !in d.calls
    case Register(id) => id in d.calls && d.calls[id].stage.Numbered?
    case Write(id) => id in d.calls && d.calls[id].stage.Registered?
    case FailWrite(id) => id in d.calls && d.calls[id].stage.Registered?
    case Receive(id) => id in d.calls && d.calls[id].stage.Awaiting? && d.calls[id].channel != []
    case Timeout(id) => id in d.calls && d.calls[id].stage.Awaiting?
    case Unregister(id) => id in d.calls && d.calls[id].stage.Finishing?
    case ReadReply(_) => d.reader.Reading?
    case SendHeld => d.reader.Holding? && d.reader.id in d.calls
    case ReadEnd => d.reader.Reading? && forall s <- d.pending.Keys :: d.pending[s] in d.calls
  }

  function Put(d: Demux, id: nat, c: Call): Demux {
    d.(calls := d.calls[id := c])
  }

  function Send(c: Call, m: Message): Call {
    c.(channel := c.channel + [m], delivered := c.delivered + 1)
  }

  /** failAllPending: the calls registered in pending, each with an end-of-output message. */
  ghost function FailAll(calls: map<nat, Call>, pending: map<int, nat>): map<nat, Call> {
    map id | id in calls ::
      if id in pending.Values then Send(calls[id], EndOfOutput(calls[id].seqNo)) else calls[id]
  }

  ghost function Apply(d: Demux, a: Action): Demux
    requires Enabled(d, a)
  {
    match a
    case Start(id, req) =>
      Put(d, id, Call(d.lastSeqNo + 1, req, Numbered, [], 0)).(lastSeqNo := d.lastSeqNo + 1)
    case Register(id) =>
      Put(d, id, d.calls[id].(stage := Registered)).(pending := d.pending[d.calls[id].seqNo := id])
    case Write(id) => Put(d, id, d.calls[id].(stage := Awaiting))
    case FailWrite(id) => Put(d, id, d.calls[id].(stage := Finishing(WriteFailed)))
    case Receive(id) =>
      var c := d.calls[id];
      Put(d, id, c.(stage := Finishing(Got(c.channel[0])), channel := c.channel[1..]))
    case Timeout(id) => Put(d, id, d.calls[id].(stage := Finishing(TimedOut)))
    case Unregister(id) =>
      Put(d, id, d.calls[id].(stage := Returned(d.calls[id].stage.result))).(pending := d.pending - {d.calls[id].seqNo})
    case ReadReply(reply) =>
      if reply.seqNo in d.pending then
        d.(pending := d.pending - {reply.seqNo}, reader := Holding(d.pending[reply.seqNo], reply))
      else d
    case SendHeld =>
      Put(d, d.reader.id, Send(d.calls[d.reader.id], FromWorker(d.reader.reply))).(reader := Reading)
    case ReadEnd => d.(calls := FailAll(d.calls, d.pending), pending := map[], reader := Stopped)
  }

  // ---------------------------------------------------------------- the invariant

  /** Messages reach only the call they are numbered for, at most one each. */
  ghost predicate CallInv(d: Demux, id: nat)
    requires id in d.calls
  {
    var c := d.calls[id];
    && 1 <= c.seqNo <= d.lastSeqNo
    && |c.channel| <= c.delivered <= 1
    && (forall m <- c.channel :: Number(m) == c.seqNo)
    && (c.stage.Numbered? ==> c.delivered == 0 && c.seqNo !in d.pending)
    && (c.stage.Returned? ==> c.seqNo !in d.pending)
    && ((c.stage.Finishing? || c.stage.Returned?) && c.stage.result.Got? ==>
          Number(c.stage.result.message) == c.seqNo && c.delivered == 1)
    && (c.seqNo in d.pending ==> d.pending[c.seqNo] == id && c.delivered == 0)
  }

  ghost predicate ReaderInv(d: Demux) {
    d.reader.Holding? ==>
      && d.reader.id in d.calls
      && !d.calls[d.reader.id].stage.Numbered?
      && d.calls[d.reader.id].seqNo == d.reader.reply.seqNo
      && d.calls[d.reader.id].delivered == 0
      && d.reader.reply.seqNo !in d.pending
  }

  ghost predicate DemuxInv(d: Demux) {
    && 0 <= d.lastSeqNo
    && (forall id <- d.calls.Keys :: CallInv(d, id))
    && (forall i, j :: i in d.calls.Keys && j in d.calls.Keys && i != j ==> d.calls[i].seqNo != d.calls[j].seqNo)
    && (forall s <- d.pending.Keys :: d.pending[s] in d.calls && d.calls[d.pending[s]].seqNo == s)
    && ReaderInv(d)
  }

  /** A caller's step on its own record, which may only shrink its channel and leaves pending as it is. */
  lemma CallerStep(d: Demux, id: nat, c: Call)
    requires DemuxInv(d) && id in d.calls
    requires !d.calls[id].stage.Numbered? && !c.stage.Numbered? && !c.stage.Returned?
    requires c.seqNo == d.calls[id].seqNo && c.delivered == d.calls[id].delivered
    requires |c.channel| <= |d.calls[id].channel| && forall m <- c.channel :: m in d.calls[id].channel
    requires c.stage.Finishing? && c.stage.result.Got? ==>
      Number(c.stage.result.message) == c.seqNo && c.delivered == 1
    ensures DemuxInv(Put(d, id, c))
  {
  }

  lemma StartKeepsInv(d: Demux, id: nat, req: Request)
    requires DemuxInv(d) && Enabled(d, Start(id, req))
    ensures DemuxInv(Apply(d, Start(id, req)))
  {
    var e := Apply(d, Start(id, req));
    forall s | s in d.pending ensures s <= d.lastSeqNo {
      assert CallInv(d, d.pending[s]);
    }
    forall j | j in e.calls ensures CallInv(e, j) && (j != id ==> e.calls[j].seqNo <= d.lastSeqNo) {
      if j != id { assert CallInv(d, j); }
    }
  }

  lemma RegisterKeepsInv(d: Demux, id: nat)
    requires DemuxInv(d) && Enabled(d, Register(id))
    ensures DemuxInv(Apply(d, Register(id)))
  {
    var e := Apply(d, Register(id));
    assert CallInv(d, id);
    forall j | j in e.calls ensures CallInv(e, j) {
      assert CallInv(d, j);
    }
  }

  lemma UnregisterKeepsInv(d: Demux, id: nat)
    requires DemuxInv(d) && Enabled(d, Unregister(id))
    ensures DemuxInv(Apply(d, Unregister(id)))
  {
  }

  lemma ReaderKeepsInv(d: Demux, a: Action)
    requires DemuxInv(d) && Enabled(d, a) && (a.ReadReply? || a.SendHeld?)
    ensures DemuxInv(Apply(d, a))
  {
  }

  lemma ReadEndKeepsInv(d: Demux)
    requires DemuxInv(d) && Enabled(d, ReadEnd)
    ensures DemuxInv(Apply(d, ReadEnd))
  {
    var e := Apply(d, ReadEnd);
    assert e.pending.Keys == {};
    forall j | j in e.calls ensures CallInv(e, j) {
      assert CallInv(d, j);
      WaitersAreRegistered(d, j);
    }
  }

  lemma WaitersAreRegistered(d: Demux, id: nat)
    requires DemuxInv(d) && id in d.calls
    ensures d.calls[id].seqNo in d.pending <==> id in d.pending.Values
  {
    assert CallInv(d, id);
    if d.calls[id].seqNo in d.pending {
      assert d.pending[d.calls[id].seqNo] in d.pending.Values;
    } else if id in d.pending.Values {
      var s := KeyOf(d.pending, id);
    }
  }

  /** Every step of a caller or of the reader keeps the invariant. */
  lemma DemuxInvStep(d: Demux, a: Action)
    requires DemuxInv(d) && Enabled(d, a)
    ensures DemuxInv(Apply(d, a))
  {
    match a
    case Start(id, req) => StartKeepsInv(d, id, req);
    case Register(id) => RegisterKeepsInv(d, id);
    case Write(id) => CallerStep(d, id, d.calls[id].(stage := Awaiting));
    case FailWrite(id) => CallerStep(d, id, d.calls[id].(stage := Finishing(WriteFailed)));
    case Receive(id) =>
      assert CallInv(d, id);
      CallerStep(d, id, d.calls[id].(stage := Finishing(Got(d.calls[id].channel[0])), channel := d.calls[id].channel[1..]));
    case Timeout(id) => CallerStep(d, id, d.calls[id].(stage := Finishing(TimedOut)));
    case Unregister(id) => UnregisterKeepsInv(d, id);
    case ReadReply(_) => ReaderKeepsInv(d, a);
    case SendHeld => ReaderKeepsInv(d, a);
    case ReadEnd => ReadEndKeepsInv(d);
  }

  /** The reader's send always finds room: the channel it holds is empty. */
  lemma HeldSendFits(d: Demux)
    requires DemuxInv(d) && d.reader.Holding?
    ensures Enabled(d, SendHeld) && d.calls[d.reader.id].channel == []
  {
  }

  /**
   At the end of the leader's output the registered channels are all empty, so the reader can send
   to each while holding the mutex; each registered call gets exactly one message and nobody else any.
   */
  lemma EndReachesEveryWaiter(d: Demux)
    requires DemuxInv(d) && d.reader.Reading?
    ensures Enabled(d, ReadEnd)
    ensures forall s <- d.pending.Keys :: d.calls[d.pending[s]].channel == []
    ensures var e := Apply(d, ReadEnd);
      && e.pending == map[]
      && e.calls.Keys == d.calls.Keys
      && forall id <- d.calls.Keys ::
        if d.calls[id].seqNo in d.pending
        then e.calls[id].delivered == 1 && e.calls[id].channel == [EndOfOutput(d.calls[id].seqNo)]
        else e.calls[id] == d.calls[id]
  {
    forall s | s in d.pending ensures d.calls[d.pending[s]].channel == [] {
      assert CallInv(d, d.pending[s]);
    }
    forall id | id in d.calls ensures d.calls[id].seqNo in d.pending <==> id in d.pending.Values {
      WaitersAreRegistered(d, id);
      assert CallInv(d, id);
    }
  }

  // ---------------------------------------------------------------- the methods are the steps

  ghost function TableOf(d: Demux): Table {
    Table(d.lastSeqNo, d.pending.Keys)
  }

  /** The channel of the call registered under this number in d, as it is in e. */
  ghost function ChannelAt(d: Demux, e: Demux, s: int): seq<Message>
    requires s in d.pending && d.pending[s] in e.calls
  {
    e.calls[d.pending[s]].channel
  }

  /** A caller's critical section is what its method does to the table. */
  lemma CallersAreSteps(d: Demux, id: nat, req: Request)
    requires DemuxInv(d)
    ensures Enabled(d, Start(id, req)) ==>
      TableOf(Apply(d, Start(id, req))) == AfterNextSeqNo(TableOf(d)) && Apply(d, Start(id, req)).calls[id].seqNo == d.lastSeqNo + 1
    ensures Enabled(d, Register(id)) ==>
      && d.calls[id].seqNo <= d.lastSeqNo && d.calls[id].channel == []
      && TableOf(Apply(d, Register(id))) == AfterRegister(TableOf(d), d.calls[id].seqNo)
    ensures Enabled(d, Unregister(id)) ==>
      TableOf(Apply(d, Unregister(id))) == AfterUnregister(TableOf(d), d.calls[id].seqNo)
  {
    if Enabled(d, Register(id)) {
      assert CallInv(d, id);
    }
  }

  /** A reply line read, and sent if anybody waits: what Deliver does to the table and to each registered channel. */
  lemma DeliverIsSteps(d: Demux, reply: Reply)
    requires DemuxInv(d) && d.reader.Reading?
    ensures var e := Apply(d, ReadReply(reply));
      && (e.reader.Holding? <==> reply.seqNo in TableOf(d).waiting)
      && (e.reader.Holding? ==> Enabled(e, SendHeld))
      && var f := if e.reader.Holding? then Apply(e, SendHeld) else e;
         && f.reader.Reading? && TableOf(f) == AfterUnregister(TableOf(d), reply.seqNo)
         && f.calls.Keys == d.calls.Keys
         && forall s <- d.pending.Keys ::
              ChannelAt(d, f, s) == if s in Delivered(TableOf(d), reply) then Delivered(TableOf(d), reply)[s] else ChannelAt(d, d, s)
  {
    forall s | s in d.pending ensures CallInv(d, d.pending[s]) {
    }
  }

  /** The end of the output: what FailAllPending does to them. */
  lemma FailAllIsStep(d: Demux)
    requires DemuxInv(d) && d.reader.Reading?
    ensures Enabled(d, ReadEnd)
    ensures var e := Apply(d, ReadEnd);
      && TableOf(e) == Table(d.lastSeqNo, {}) && e.calls.Keys == d.calls.Keys
      && forall s <- d.pending.Keys :: ChannelAt(d, e, s) == Ended(TableOf(d))[s]
  {
    EndReachesEveryWaiter(d);
  }
}
