/**
 The leader and its children left to themselves: from whatever state they are in, they can finish
 all that they have been given, and once stdin is closed the leader's loop can end.
 */
module PoolDrains {
  import opened PoolProtocol
  import opened ForkPool

  ghost predicate Steps(p: Pool, acts: seq<Action>, q: Pool)
    decreases |acts|
  {
    if acts == [] then p == q
    else Enabled(p, acts[0]) && Steps(Apply(p, acts[0]), acts[1..], q)
  }

  /** Nobody dies, and every render succeeds. */
  predicate GentleAction(a: Action) {
    !a.Crash? && !a.ChildDie? && (a.ChildFinish? || a.FinishInline? ==> a.outcome.Rendered?)
  }

  ghost predicate Gentle(acts: seq<Action>) {
    forall a <- acts :: GentleAction(a)
  }

  /** What a gentle stretch leaves as it is: who lives, and, but for a quit, that none was given. */
  ghost predicate SameLives(p: Pool, q: Pool) {
    |q.children| == |p.children| && forall i :: 0 <= i < |p.children| ==> q.children[i].alive == p.children[i].alive
  }

  /** q can be reached from p by these gentle steps, which keep the invariant. */
  ghost predicate Reaches(p: Pool, acts: seq<Action>, q: Pool) {
    Steps(p, acts, q) && Gentle(acts) && LoopInv(q) && SameLives(p, q) && q.submitted == p.submitted
  }

  lemma {:induction false} StepsJoin(p: Pool, a: seq<Action>, q: Pool, b: seq<Action>, r: Pool)
    requires Steps(p, a, q) && Steps(q, b, r)
    ensures Steps(p, a + b, r)
    decreases |a|
  {
    hide Enabled, Apply;
    if a == [] {
      assert a + b == b;
    } else {
      StepsJoin(Apply(p, a[0]), a[1..], q, b, r);
      assert (a + b)[1..] == a[1..] + b;
    }
  }

  lemma ReachesJoin(p: Pool, a: seq<Action>, q: Pool, b: seq<Action>, r: Pool)
    requires Reaches(p, a, q) && Reaches(q, b, r)
    ensures Reaches(p, a + b, r)
  {
    hide Steps, LoopInv;
    StepsJoin(p, a, q, b, r);
  }

  lemma ReachesNothing(p: Pool)
    requires LoopInv(p)
    ensures Reaches(p, [], p)
  {
    hide LoopInv;
  }

  lemma ReachesOne(p: Pool, a: Action)
    requires LoopInv(p) && Enabled(p, a) && GentleAction(a)
    ensures Reaches(p, [a], Apply(p, a))
  {
    LoopInvStep(p, a);
    SameLivesStep(p, a);
    hide Enabled, Apply, LoopInv;
    assert [a][1..] == [];
    assert Steps(Apply(p, a), [], Apply(p, a));
  }

  lemma SameLivesStep(p: Pool, a: Action)
    requires Enabled(p, a) && GentleAction(a)
    ensures SameLives(p, Apply(p, a)) && Apply(p, a).submitted == p.submitted
  {
    hide FirstIdle;
  }

  // ---------------------------------------------------------------- one child

  /** Nothing is with the child, and the leader takes it for idle. */
  ghost predicate Quiet(p: Pool, i: nat)
    requires i < |p.children| == |p.loop.busy|
  {
    p.children[i].inbox == [] && p.children[i].work.None? && p.children[i].outbox == [] && !p.loop.busy[i]
  }

  /** Only child i, and the leader's view of it, have changed. */
  ghost predicate OnlyAt(p: Pool, q: Pool, i: nat) {
    && |q.children| == |q.loop.busy| == |p.children| == |p.loop.busy|
    && (forall j :: 0 <= j < |p.children| && j != i ==> q.children[j] == p.children[j] && q.loop.busy[j] == p.loop.busy[j])
    && q.stdin == p.stdin && q.stdinClosed == p.stdinClosed
    && q.loop.stdinOpen == p.loop.stdinOpen && q.loop.quitting == p.loop.quitting
  }

  /** A live child that has a command carries it out. */
  lemma ChildWorks(p: Pool, i: nat) returns (acts: seq<Action>, q: Pool)
    requires LoopInv(p) && p.phase == Children(i) && i < |p.children|
    ensures Reaches(p, acts, q) && OnlyAt(p, q, i) && q.phase == p.phase
    ensures q.children[i].inbox == [] && q.children[i].work.None?
  {
    assert ChildInv(p, i);
    var c := p.children[i];
    acts, q := [], p;
    ReachesNothing(p);
    if c.inbox != [] {
      ReachesOne(p, ChildTake(i));
      q := Apply(p, ChildTake(i));
      acts := [ChildTake(i)];
    }
    if q.children[i].work.Some? {
      assert ChildInv(q, i);
      hide LoopInv, Reaches;
      var r := WorkDone(q, i);
      ReachesJoin(p, acts, q, [ChildFinish(i, Rendered)], r);
      acts, q := acts + [ChildFinish(i, Rendered)], r;
    }
  }

  lemma WorkDone(p: Pool, i: nat) returns (q: Pool)
    requires LoopInv(p) && p.phase == Children(i) && i < |p.children| && p.children[i].work.Some? && p.children[i].inbox == []
    ensures Reaches(p, [ChildFinish(i, Rendered)], q) && OnlyAt(p, q, i) && q.phase == p.phase
    ensures q.children[i].inbox == [] && q.children[i].work.None?
  {
    assert ChildInv(p, i);
    ReachesOne(p, ChildFinish(i, Rendered));
    q := Apply(p, ChildFinish(i, Rendered));
  }

  /** The replies in hand are forwarded and the leader goes on to the next child. */
  lemma RepliesForwarded(p: Pool, i: nat) returns (acts: seq<Action>, q: Pool)
    requires LoopInv(p) && p.phase.Replies? && p.phase.child == i < |p.children|
    requires p.children[i].inbox == [] && p.children[i].work.None? && p.children[i].outbox == []
    requires p.phase.dead || p.children[i].alive
    ensures Reaches(p, acts, q) && OnlyAt(p, q, i) && q.phase == Children(i + 1) && Quiet(q, i)
  {
    assert ChildInv(p, i);
    acts, q := [], p;
    ReachesNothing(p);
    if p.phase.replies != [] {
      ReachesOne(p, Forward);
      q := Apply(p, Forward);
      acts := [Forward];
      assert p.phase.replies[1..] == [];
    }
    assert ChildInv(q, i) && q.phase == Replies(i, [], p.phase.dead) && OnlyAt(p, q, i);
    assert q.phase.dead || !q.loop.busy[i];
    var r := ChildLeft(q, i);
    hide LoopInv, Reaches, Apply, Enabled;
    ReachesJoin(p, acts, q, [EndReplies], r);
    acts, q := acts + [EndReplies], r;
  }

  lemma ChildLeft(p: Pool, i: nat) returns (q: Pool)
    requires LoopInv(p) && p.phase.Replies? && p.phase.child == i < |p.children| && p.phase.replies == []
    requires p.children[i].inbox == [] && p.children[i].work.None? && p.children[i].outbox == []
    requires p.phase.dead || !p.loop.busy[i]
    ensures Reaches(p, [EndReplies], q) && OnlyAt(p, q, i) && q.phase == Children(i + 1) && Quiet(q, i)
  {
    ReachesOne(p, EndReplies);
    q := Apply(p, EndReplies);
  }

  /** Child i carries out what it has, and the leader reads and forwards its answer. */
  lemma ChildDone(p: Pool, i: nat) returns (acts: seq<Action>, q: Pool)
    requires LoopInv(p) && p.phase == Children(i) && i < |p.children|
    ensures Reaches(p, acts, q) && OnlyAt(p, q, i) && q.phase == Children(i + 1) && Quiet(q, i)
  {
    hide Reaches;
    var acts1, q1 := ChildWorks(p, i);
    assert q1.children[i].alive == p.children[i].alive by { ReachesKeeps(p, acts1, q1); }
    ReachesKeeps(p, acts1, q1);
    var drain := DrainChild(|q1.children[i].outbox|, !q1.children[i].alive);
    var q2 := ChildRead(q1, i, drain);
    var acts3, q3 := RepliesForwarded(q2, i);
    ReachesJoin(p, acts1, q1, [drain], q2);
    ReachesJoin(p, acts1 + [drain], q2, acts3, q3);
    acts, q := acts1 + [drain] + acts3, q3;
  }

  lemma ReachesKeeps(p: Pool, acts: seq<Action>, q: Pool)
    requires Reaches(p, acts, q)
    ensures LoopInv(q) && SameLives(p, q)
  {
  }

  lemma ChildRead(p: Pool, i: nat, drain: Action) returns (q: Pool)
    requires LoopInv(p) && p.phase == Children(i) && i < |p.children|
    requires p.children[i].inbox == [] && p.children[i].work.None?
    requires drain == DrainChild(|p.children[i].outbox|, !p.children[i].alive)
    ensures Reaches(p, [drain], q) && LoopInv(q) && OnlyAt(p, q, i)
    ensures q.phase.Replies? && q.phase.child == i && (q.phase.dead || q.children[i].alive)
    ensures q.children[i].inbox == [] && q.children[i].work.None? && q.children[i].outbox == []
  {
    ReachesOne(p, drain);
    q := Apply(p, drain);
  }

  // ---------------------------------------------------------------- all children, one iteration

  /** What a sweep over the children leaves as it is. */
  ghost predicate SameInput(p: Pool, q: Pool) {
    && |q.children| == |q.loop.busy| == |p.children| == |p.loop.busy|
    && q.stdin == p.stdin && q.stdinClosed == p.stdinClosed
    && q.loop.stdinOpen == p.loop.stdinOpen && q.loop.quitting == p.loop.quitting
  }

  lemma {:induction false} Swept(p: Pool, i: nat) returns (acts: seq<Action>, q: Pool)
    requires LoopInv(p) && p.phase == Children(i) && i <= |p.children|
    ensures Reaches(p, acts, q) && SameInput(p, q) && q.phase == Children(|p.children|)
    ensures forall k :: 0 <= k < |p.children| ==>
      if i <= k then Quiet(q, k) else q.children[k] == p.children[k] && q.loop.busy[k] == p.loop.busy[k]
    decreases |p.children| - i
  {
    if i == |p.children| {
      acts, q := [], p;
      ReachesNothing(p);
    } else {
      hide Reaches, LoopInv;
      assert |p.children| == |p.loop.busy| by { LoopInvSizes(p); }
      var acts1, q1 := ChildDone(p, i);
      ReachesKeeps(p, acts1, q1);
      var acts2;
      acts2, q := Swept(q1, i + 1);
      ReachesJoin(p, acts1, q1, acts2, q);
      acts := acts1 + acts2;
    }
  }

  lemma LoopInvSizes(p: Pool)
    requires LoopInv(p) && !p.phase.Crashed?
    ensures |p.children| == |p.loop.busy|
  {
  }

  /** The sweep over, the leader goes round again or leaves. */
  lemma IterationEnded(p: Pool) returns (q: Pool)
    requires LoopInv(p) && p.phase == Children(|p.children|)
    ensures Reaches(p, [EndIteration], q) && q == p.(phase := if p.loop.Breaks() || !p.loop.GoesOn() then Exited else Head)
  {
    ReachesOne(p, EndIteration);
    q := Apply(p, EndIteration);
  }

  /** The lines read are handled, up to a quit; without one nothing is dropped. */
  lemma {:induction false} LinesTaken(p: Pool, lines: seq<Line>, eof: bool) returns (acts: seq<Action>, q: Pool)
    requires LoopInv(p) && p.phase == Batch(lines, eof)
    ensures Reaches(p, acts, q) && q.phase == Children(0) && q.stdin == p.stdin && q.stdinClosed == p.stdinClosed
    ensures |q.children| == |p.children|
    ensures q.loop.stdinOpen <==> p.loop.stdinOpen && !eof && !q.loop.quitting
    ensures Quit !in lines ==> q.loop.quitting == p.loop.quitting
    decreases |lines|
  {
    if lines == [] {
      ReachesOne(p, EndBatch);
      acts, q := [EndBatch], Apply(p, EndBatch);
    } else {
      var acts1, q1 := LineTaken(p, lines, eof);
      hide LoopInv, Reaches;
      ReachesKeeps(p, acts1, q1);
      if lines[0].Quit? {
        acts, q := acts1, q1;
      } else {
        var acts2;
        acts2, q := LinesTaken(q1, lines[1..], eof);
        ReachesJoin(p, acts1, q1, acts2, q);
        acts := acts1 + acts2;
      }
    }
  }

  lemma LineTaken(p: Pool, lines: seq<Line>, eof: bool) returns (acts: seq<Action>, q: Pool)
    requires LoopInv(p) && p.phase == Batch(lines, eof) && lines != []
    ensures Reaches(p, acts, q) && q.stdin == p.stdin && q.stdinClosed == p.stdinClosed && |q.children| == |p.children|
    ensures if lines[0].Quit? then q.phase == Children(0) && q.loop.quitting && !q.loop.stdinOpen
      else q.phase == Batch(lines[1..], eof) && q.loop.stdinOpen == p.loop.stdinOpen && q.loop.quitting == p.loop.quitting
  {
    ReachesOne(p, TakeLine);
    q := Apply(p, TakeLine);
    acts := [TakeLine];
    NothingRefused(p);
    if q.phase.Inline? {
      var r := InlineDone(q);
      hide LoopInv, Reaches, Apply, Enabled;
      ReachesJoin(p, acts, q, [FinishInline(Rendered)], r);
      acts, q := acts + [FinishInline(Rendered)], r;
    }
  }

  lemma NothingRefused(p: Pool)
    requires LoopInv(p) && p.phase.Batch?
    ensures !Assign(p.loop).Queued?
  {
  }

  lemma InlineDone(p: Pool) returns (q: Pool)
    requires LoopInv(p) && p.phase.Inline?
    ensures Reaches(p, [FinishInline(Rendered)], q)
    ensures q.phase == Batch(p.phase.rest, p.phase.eof) && q.stdin == p.stdin && q.stdinClosed == p.stdinClosed && |q.children| == |p.children|
    ensures q.loop.stdinOpen == p.loop.stdinOpen && q.loop.quitting == p.loop.quitting
  {
    ReachesOne(p, FinishInline(Rendered));
    q := Apply(p, FinishInline(Rendered));
  }

  /** No quit is given, waiting or read. */
  ghost predicate NoQuit(p: Pool) {
    !p.loop.quitting && Quit !in p.stdin && Quit !in PhaseLines(p.phase)
  }

  /** The end of stdin has not been seen. */
  ghost predicate Open(p: Pool) {
    p.loop.stdinOpen && !(p.phase.Batch? && p.phase.eof) && !(p.phase.Inline? && p.phase.eof)
  }

  /** From wherever the leader is in its loop body it can come to the sweep over its children. */
  lemma SweepReached(p: Pool) returns (acts: seq<Action>, q: Pool, i: nat)
    requires LoopInv(p) && Running(p) && !p.phase.Head?
    ensures Reaches(p, acts, q) && q.phase == Children(i) && i <= |q.children| == |p.children|
    ensures q.stdin == p.stdin && q.stdinClosed == p.stdinClosed
    ensures NoQuit(p) ==> NoQuit(q) && (Open(p) ==> Open(q))
  {
    match p.phase
    case Children(next) =>
      acts, q, i := [], p, next;
      ReachesNothing(p);
    case Batch(lines, eof) =>
      acts, q := LinesTaken(p, lines, eof);
      i := 0;
      ReachesKeeps(p, acts, q);
    case Inline(_, rest, eof) =>
      var q1 := InlineDone(p);
      ReachesKeeps(p, [FinishInline(Rendered)], q1);
      var acts2;
      acts2, q := LinesTaken(q1, rest, eof);
      ReachesKeeps(q1, acts2, q);
      ReachesJoin(p, [FinishInline(Rendered)], q1, acts2, q);
      acts, i := [FinishInline(Rendered)] + acts2, 0;
    case Replies(child, replies, dead) =>
      acts, q := RepliesInHand(p, child);
      i := child + 1;
      ReachesKeeps(p, acts, q);
  }

  /** In the middle of a child's replies: what is in hand is forwarded. */
  lemma RepliesInHand(p: Pool, i: nat) returns (acts: seq<Action>, q: Pool)
    requires LoopInv(p) && p.phase.Replies? && p.phase.child == i
    ensures i < |p.children| && Reaches(p, acts, q) && OnlyAt(p, q, i) && q.phase == Children(i + 1)
  {
    assert ChildInv(p, i);
    acts, q := [], p;
    ReachesNothing(p);
    if p.phase.replies != [] {
      ReachesOne(p, Forward);
      q := Apply(p, Forward);
      acts := [Forward];
      assert p.phase.replies[1..] == [];
    }
    assert q.phase == Replies(i, [], p.phase.dead) && OnlyAt(p, q, i);
    var r := HandEmpty(q, i);
    hide LoopInv, Reaches, Apply, Enabled;
    ReachesJoin(p, acts, q, [EndReplies], r);
    acts, q := acts + [EndReplies], r;
  }

  lemma HandEmpty(p: Pool, i: nat) returns (q: Pool)
    requires LoopInv(p) && p.phase.Replies? && p.phase.child == i < |p.children| && p.phase.replies == []
    ensures Reaches(p, [EndReplies], q) && OnlyAt(p, q, i) && q.phase == Children(i + 1)
  {
    ReachesOne(p, EndReplies);
    q := Apply(p, EndReplies);
  }

  /** From a sweep to the end of the iteration. */
  lemma SweepEnded(p: Pool, i: nat) returns (acts: seq<Action>, q: Pool)
    requires LoopInv(p) && p.phase == Children(i) && i <= |p.children|
    ensures Reaches(p, acts, q) && SameInput(p, q) && (q.phase.Head? || q.phase.Exited?)
    ensures forall k :: i <= k < |p.children| ==> Quiet(q, k)
    ensures i == 0 && !p.loop.stdinOpen ==> q.phase.Exited?
    ensures p.loop.stdinOpen ==> q.phase.Head?
  {
    hide Reaches;
    var acts1, q1 := Swept(p, i);
    ReachesKeeps(p, acts1, q1);
    q := IterationEnded(q1);
    ReachesKeeps(q1, [EndIteration], q);
    ReachesJoin(p, acts1, q1, [EndIteration], q);
    acts := acts1 + [EndIteration];
  }

  /** The leader can come to the head of its loop, or leave it. */
  lemma HeadReached(p: Pool) returns (acts: seq<Action>, q: Pool)
    requires LoopInv(p) && Running(p)
    ensures Reaches(p, acts, q) && (q.phase.Head? || q.phase.Exited?)
    ensures q.stdin == p.stdin && q.stdinClosed == p.stdinClosed
    ensures NoQuit(p) ==> NoQuit(q) && (Open(p) ==> Open(q) && q.phase.Head?)
  {
    if p.phase.Head? {
      acts, q := [], p;
      ReachesNothing(p);
    } else {
      var acts1, q1, i := SweepReached(p);
      hide Reaches;
      ReachesKeeps(p, acts1, q1);
      var acts2;
      acts2, q := SweepEnded(q1, i);
      ReachesJoin(p, acts1, q1, acts2, q);
      acts := acts1 + acts2;
    }
  }

  /** With stdin still open but written to the end and closed, one more iteration reads all of it, and the loop ends. */
  lemma LastIteration(p: Pool) returns (acts: seq<Action>, q: Pool)
    requires LoopInv(p) && p.phase.Head? && p.loop.stdinOpen && p.stdinClosed
    ensures Reaches(p, acts, q) && q.phase.Exited? && q.stdin == []
    ensures NoQuit(p) ==> NoQuit(q)
  {
    var poll := Poll(|p.stdin|, true);
    ReachesOne(p, poll);
    var q1 := Apply(p, poll);
    assert q1.phase == Batch(p.stdin, true) && q1.stdin == [];
    ReachesKeeps(p, [poll], q1);
    hide Reaches, Apply, Enabled;
    var acts2, q2 := LinesTaken(q1, p.stdin, true);
    ReachesKeeps(q1, acts2, q2);
    var acts3;
    acts3, q := SweepEnded(q2, 0);
    ReachesJoin(p, [poll], q1, acts2, q2);
    ReachesJoin(p, [poll] + acts2, q2, acts3, q);
    acts := [poll] + acts2 + acts3;
  }

  /**
   Wherever the leader and its children are, and however many of them have died: once stdin has been
   written to the end, the leader can read all of it and leave its loop, nobody dying on the way.
   */
  lemma CanDrain(p: Pool) returns (acts: seq<Action>, q: Pool)
    requires LoopInv(p) && Running(p) && NoQuit(p) && Open(p) && p.stdinClosed
    ensures Reaches(p, acts, q) && q.phase.Exited? && q.stdin == [] && NoQuit(q)
  {
    var acts1, q1 := HeadReached(p);
    ReachesKeeps(p, acts1, q1);
    var acts2;
    acts2, q := LastIteration(q1);
    ReachesJoin(p, acts1, q1, acts2, q);
    acts := acts1 + acts2;
  }
}
