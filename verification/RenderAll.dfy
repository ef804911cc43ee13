/**
 Rendering all chunks with bounded concurrency: one goroutine a chunk, a semaphore, a context that
 the first error cancels, and one result slot a chunk.
 */
module RenderAll {
  import opened Basics

  datatype Result = Ok(path: string) | Err(error: string)

  datatype Stage = Queued | Holding | Rendering | Done

  /** finished records what each render returned; cancelledOutside is the caller's own context. */
  datatype State = State(
    stages: seq<Stage>, out: seq<Option<string>>, firstErr: Option<string>,
    cancelled: bool, cancelledOutside: bool, finished: seq<Option<Result>>)

  datatype Action =
    | Acquire(i: nat)
    | GiveUp(i: nat)
    | Begin(i: nat)
    | Skip(i: nat)
    | Finish(i: nat, result: Result)
    | CancelOutside

  function Permits(parallel: int): nat {
    if parallel < 1 then 1 else parallel
  }

  function InUse(stages: seq<Stage>): nat {
    if stages == [] then 0
    else InUse(stages[..|stages| - 1]) + (if stages[|stages| - 1].Holding? || stages[|stages| - 1].Rendering? then 1 else 0)
  }

  function Renders(stages: seq<Stage>): nat {
    if stages == [] then 0
    else Renders(stages[..|stages| - 1]) + (if stages[|stages| - 1].Rendering? then 1 else 0)
  }

  function Start(chunks: nat): State {
    State(seq(chunks, _ => Queued), seq(chunks, _ => None), None, false, false, seq(chunks, _ => None))
  }

  ghost predicate Enabled(parallel: int, s: State, a: Action) {
    && |s.stages| == |s.out| == |s.finished|
    && match a
       case Acquire(i) => i < |s.stages| && s.stages[i].Queued? && InUse(s.stages) < Permits(parallel)
       case GiveUp(i) => i < |s.stages| && s.stages[i].Queued? && s.cancelled
       case Begin(i) => i < |s.stages| && s.stages[i].Holding? && !s.cancelled
       case Skip(i) => i < |s.stages| && s.stages[i].Holding? && s.cancelled
       case Finish(i, _) => i < |s.stages| && s.stages[i].Rendering?
       case CancelOutside => true
  }

  function To(s: State, i: nat, stage: Stage): State
    requires i < |s.stages|
  {
    s.(stages := s.stages[i := stage])
  }

  ghost function Apply(parallel: int, s: State, a: Action): State
    requires Enabled(parallel, s, a)
  {
    match a
    case Acquire(i) => To(s, i, Holding)
    case GiveUp(i) => To(s, i, Done)
    case Begin(i) => To(s, i, Rendering)
    case Skip(i) => To(s, i, Done)
    case Finish(i, result) =>
      var t := To(s, i, Done).(finished := s.finished[i := Some(result)]);
      (match result
       case Ok(path) => t.(out := s.out[i := Some(path)])
       case Err(error) => if s.firstErr.None? then t.(firstErr := Some(error), cancelled := true) else t)
    case CancelOutside => s.(cancelled := true, cancelledOutside := true)
  }

  ghost predicate Run(parallel: int, a: State, steps: seq<Action>, b: State)
    decreases |steps|
  {
    if steps == [] then a == b
    else Enabled(parallel, a, steps[0]) && Run(parallel, Apply(parallel, a, steps[0]), steps[1..], b)
  }

  /** wg.Wait returns. */
  ghost predicate Returned(s: State) {
    forall i :: 0 <= i < |s.stages| ==> s.stages[i].Done?
  }

  /** Slot i agrees with what chunk i's render returned; a chunk is done without a render only after a cancel. */
  ghost predicate SlotInv(s: State, i: nat)
    requires i < |s.stages| == |s.out| == |s.finished|
  {
    && (s.finished[i].Some? ==> s.stages[i].Done?)
    && (s.stages[i].Done? && s.finished[i].None? ==> s.cancelled)
    && (s.out[i] == if s.finished[i].Some? && s.finished[i].value.Ok? then Some(s.finished[i].value.path) else None)
    && (s.finished[i].Some? && s.finished[i].value.Err? ==> s.firstErr.Some?)
  }

  ghost predicate Reported(s: State, error: string) {
    exists i :: 0 <= i < |s.finished| && s.finished[i] == Some(Err(error))
  }

  ghost predicate Inv(parallel: int, s: State) {
    && |s.stages| == |s.out| == |s.finished|
    && InUse(s.stages) <= Permits(parallel)
    && (forall i :: 0 <= i < |s.stages| ==> SlotInv(s, i))
    && (s.firstErr.Some? ==> Reported(s, s.firstErr.value))
    && (s.cancelled ==> s.firstErr.Some? || s.cancelledOutside)
  }

  lemma {:induction false} InUseUpdate(stages: seq<Stage>, i: nat, stage: Stage)
    requires i < |stages|
    ensures InUse(stages[i := stage]) == InUse(stages)
      - (if stages[i].Holding? || stages[i].Rendering? then 1 else 0)
      + (if stage.Holding? || stage.Rendering? then 1 else 0)
  {
    var n := |stages|;
    if i == n - 1 {
      assert stages[i := stage][..n - 1] == stages[..n - 1];
    } else {
      InUseUpdate(stages[..n - 1], i, stage);
      assert stages[i := stage][..n - 1] == stages[..n - 1][i := stage];
    }
  }

  lemma ReportedStays(s: State, t: State, error: string)
    requires Reported(s, error) && |t.finished| == |s.finished|
    requires forall i :: 0 <= i < |s.finished| && s.finished[i].Some? ==> t.finished[i] == s.finished[i]
    ensures Reported(t, error)
  {
  }

  lemma SlotsStep(parallel: int, s: State, a: Action)
    requires Inv(parallel, s) && Enabled(parallel, s, a)
    ensures var t := Apply(parallel, s, a); forall i :: 0 <= i < |t.stages| ==> SlotInv(t, i)
  {
    hide InUse, Permits, Reported;
    var t := Apply(parallel, s, a);
    forall i | 0 <= i < |t.stages| ensures SlotInv(t, i) {
      assert SlotInv(s, i);
    }
  }

  lemma InvStep(parallel: int, s: State, a: Action)
    requires Inv(parallel, s) && Enabled(parallel, s, a)
    ensures Inv(parallel, Apply(parallel, s, a))
  {
    SlotsStep(parallel, s, a);
    if !a.CancelOutside? {
      assert SlotInv(s, a.i);
    }
    hide InUse, Permits, SlotInv;
    var t := Apply(parallel, s, a);
    if !a.CancelOutside? {
      InUseUpdate(s.stages, a.i, t.stages[a.i]);
    }
    if s.firstErr.Some? {
      ReportedStays(s, t, s.firstErr.value);
    } else if t.firstErr.Some? {
      assert t.finished[a.i] == Some(Err(t.firstErr.value));
    }
  }

  lemma {:induction false} InvOnRuns(parallel: int, a: State, steps: seq<Action>, b: State)
    requires Inv(parallel, a) && Run(parallel, a, steps, b)
    ensures Inv(parallel, b) && |b.stages| == |a.stages|
    decreases |steps|
  {
    if steps != [] {
      InvStep(parallel, a, steps[0]);
      InvOnRuns(parallel, Apply(parallel, a, steps[0]), steps[1..], b);
    }
  }

  lemma {:induction false} StartInv(parallel: int, chunks: nat)
    ensures Inv(parallel, Start(chunks))
  {
    NoneInUse(Start(chunks).stages);
  }

  lemma {:induction false} NoneInUse(stages: seq<Stage>)
    requires forall stage <- stages :: stage.Queued?
    ensures InUse(stages) == 0
  {
    if stages != [] {
      assert stages[|stages| - 1].Queued?;
      NoneInUse(stages[..|stages| - 1]);
    }
  }

  lemma {:induction false} RendersUsePermits(stages: seq<Stage>)
    ensures Renders(stages) <= InUse(stages)
  {
    if stages != [] {
      RendersUsePermits(stages[..|stages| - 1]);
    }
  }

  lemma {:induction false} NoneRendering(stages: seq<Stage>)
    requires forall i :: 0 <= i < |stages| ==> stages[i].Done?
    ensures Renders(stages) == 0
  {
    if stages != [] {
      NoneRendering(stages[..|stages| - 1]);
    }
  }

  /** In every interleaving at most max(1, parallel) renders run at once. */
  lemma BoundedConcurrency(parallel: int, chunks: nat, steps: seq<Action>, s: State)
    requires Run(parallel, Start(chunks), steps, s)
    ensures Renders(s.stages) <= Max(1, parallel)
  {
    StartInv(parallel, chunks);
    InvOnRuns(parallel, Start(chunks), steps, s);
    RendersUsePermits(s.stages);
  }

  /**
   When renderAll returns no render is under way: an error is one that some render returned; without an error, and with
   the caller's context not cancelled, every slot holds what its own chunk's render returned.
   */
  lemma ReturnIsFaithful(parallel: int, chunks: nat, steps: seq<Action>, s: State)
    requires Run(parallel, Start(chunks), steps, s) && Returned(s)
    ensures Renders(s.stages) == 0
    ensures s.firstErr.Some? ==> Reported(s, s.firstErr.value)
    ensures s.firstErr.None? && !s.cancelledOutside ==>
      |s.out| == |s.finished| == chunks && forall i :: 0 <= i < chunks ==>
        s.out[i].Some? && s.finished[i] == Some(Ok(s.out[i].value))
  {
    StartInv(parallel, chunks);
    InvOnRuns(parallel, Start(chunks), steps, s);
    NoneRendering(s.stages);
    if s.firstErr.None? && !s.cancelledOutside {
      forall i | 0 <= i < chunks ensures s.out[i].Some? && s.finished[i] == Some(Ok(s.out[i].value)) {
        assert SlotInv(s, i);
      }
    }
  }

  // ---------------------------------------------------------------- which error, and what begins after it

  ghost predicate Fails(a: Action) {
    a.Finish? && a.result.Err?
  }

  /** What the earliest render that failed returned. */
  ghost function FirstFailure(steps: seq<Action>): Option<string> {
    if steps == [] then None
    else if Fails(steps[0]) then Some(steps[0].result.error)
    else FirstFailure(steps[1..])
  }

  lemma {:induction false} FirstFailureOnRuns(parallel: int, a: State, steps: seq<Action>, b: State)
    requires Run(parallel, a, steps, b)
    ensures b.firstErr == if a.firstErr.Some? then a.firstErr else FirstFailure(steps)
    decreases |steps|
  {
    if steps != [] {
      FirstFailureOnRuns(parallel, Apply(parallel, a, steps[0]), steps[1..], b);
    }
  }

  lemma {:induction false} FirstFailureIs(steps: seq<Action>, i: nat, error: string)
    requires i < |steps| && Fails(steps[i]) && steps[i].result.error == error && forall j :: 0 <= j < i ==> !Fails(steps[j])
    ensures FirstFailure(steps) == Some(error)
  {
    if i > 0 {
      FirstFailureIs(steps[1..], i - 1, error);
    }
  }

  lemma {:induction false} FirstFailureAt(steps: seq<Action>) returns (i: nat)
    requires FirstFailure(steps).Some?
    ensures i < |steps| && Fails(steps[i]) && FirstFailure(steps) == Some(steps[i].result.error)
    ensures forall j :: 0 <= j < i ==> !Fails(steps[j])
  {
    if Fails(steps[0]) {
      i := 0;
    } else {
      var k := FirstFailureAt(steps[1..]);
      i := k + 1;
    }
  }

  /** The run's error is e if and only if the earliest render that failed returned e. */
  lemma ErrorIsTheFirst(parallel: int, chunks: nat, steps: seq<Action>, s: State, e: string)
    requires Run(parallel, Start(chunks), steps, s)
    ensures s.firstErr == Some(e) <==>
      exists i :: 0 <= i < |steps| && Fails(steps[i]) && steps[i].result.error == e && forall j :: 0 <= j < i ==> !Fails(steps[j])
  {
    FirstFailureOnRuns(parallel, Start(chunks), steps, s);
    if s.firstErr == Some(e) {
      var i := FirstFailureAt(steps);
    }
    forall i | 0 <= i < |steps| && Fails(steps[i]) && steps[i].result.error == e && forall j :: 0 <= j < i ==> !Fails(steps[j])
      ensures s.firstErr == Some(e)
    {
      FirstFailureIs(steps, i, e);
    }
  }

  lemma {:induction false} NothingBeginsOnceCancelled(parallel: int, a: State, steps: seq<Action>, b: State)
    requires a.cancelled && Run(parallel, a, steps, b)
    ensures forall a <- steps :: !a.Begin?
    decreases |steps|
  {
    if steps != [] {
      NothingBeginsOnceCancelled(parallel, Apply(parallel, a, steps[0]), steps[1..], b);
    }
  }

  /** After a render has failed, or the caller has cancelled, no further render begins. */
  lemma {:induction false} NothingBeginsAfterFailure(parallel: int, a: State, steps: seq<Action>, b: State, i: nat)
    requires Run(parallel, a, steps, b) && i < |steps| && (Fails(steps[i]) || steps[i].CancelOutside?)
    requires a.firstErr.Some? ==> a.cancelled
    ensures forall j :: i < j < |steps| ==> !steps[j].Begin?
    decreases |steps|
  {
    var next := Apply(parallel, a, steps[0]);
    if i > 0 {
      NothingBeginsAfterFailure(parallel, next, steps[1..], b, i - 1);
    } else {
      NothingBeginsOnceCancelled(parallel, next, steps[1..], b);
    }
    forall j | i < j < |steps| ensures !steps[j].Begin? {
      assert steps[j] == steps[1..][j - 1] && steps[j] in steps[1..];
    }
  }

  // ---------------------------------------------------------------- all permits can be used

  /** The first i chunks render, the others wait. */
  ghost predicate RenderingTo(s: State, i: nat) {
    && |s.stages| == |s.out| == |s.finished| && i <= |s.stages| && !s.cancelled
    && forall k :: 0 <= k < |s.stages| ==> s.stages[k] == if k < i then Rendering else Queued
  }

  lemma {:induction false} RenderingUses(stages: seq<Stage>, i: nat)
    requires i <= |stages| && forall k :: 0 <= k < |stages| ==> stages[k] == if k < i then Rendering else Queued
    ensures InUse(stages) == Renders(stages) == i
  {
    if stages != [] {
      RenderingUses(stages[..|stages| - 1], Min(i, |stages| - 1));
    }
  }

  lemma {:induction false} BeginMore(parallel: int, s: State, i: nat, goal: nat) returns (steps: seq<Action>, t: State)
    requires RenderingTo(s, i) && i <= goal <= |s.stages| && goal <= Max(1, parallel)
    ensures Run(parallel, s, steps, t) && RenderingTo(t, goal)
    decreases goal - i
  {
    if i == goal {
      steps, t := [], s;
    } else {
      RenderingUses(s.stages, i);
      var a := Apply(parallel, s, Acquire(i));
      var next := Apply(parallel, a, Begin(i));
      var rest;
      rest, t := BeginMore(parallel, next, i + 1, goal);
      steps := [Acquire(i), Begin(i)] + rest;
      assert steps[1..] == [Begin(i)] + rest && steps[1..][1..] == rest;
    }
  }

  /** And that many can: all chunks at once, or max(1, parallel) of them. */
  lemma AllPermitsCanBeUsed(parallel: int, chunks: nat) returns (steps: seq<Action>, s: State)
    ensures Run(parallel, Start(chunks), steps, s) && Renders(s.stages) == Min(chunks, Max(1, parallel))
  {
    steps, s := BeginMore(parallel, Start(chunks), 0, Min(chunks, Max(1, parallel)));
    RenderingUses(s.stages, Min(chunks, Max(1, parallel)));
  }

  // ---------------------------------------------------------------- a cancel from outside

  /** Without an error, a slot is empty exactly when its chunk was never rendered, and then the caller had cancelled. */
  lemma EmptySlotMeansCancelledOutside(parallel: int, chunks: nat, steps: seq<Action>, s: State, i: nat)
    requires Run(parallel, Start(chunks), steps, s) && Returned(s) && s.firstErr.None?
    requires i < |s.out|
    ensures |s.out| == |s.finished|
    ensures s.out[i].None? <==> s.finished[i].None?
    ensures s.out[i].None? ==> s.cancelledOutside
  {
    StartInv(parallel, chunks);
    InvOnRuns(parallel, Start(chunks), steps, s);
    assert SlotInv(s, i);
  }

  /** The first i chunks have returned these paths, the others have not begun. */
  ghost predicate ServedTo(s: State, paths: seq<string>, i: nat) {
    && |s.stages| == |s.out| == |s.finished| == |paths| && i <= |paths|
    && s.firstErr.None? && !s.cancelled && !s.cancelledOutside
    && (forall k :: 0 <= k < |paths| ==>
          s.stages[k] == (if k < i then Done else Queued) && s.finished[k] == (if k < i then Some(Ok(paths[k])) else None))
  }

  lemma {:induction false} NoneHolds(stages: seq<Stage>)
    requires forall k :: 0 <= k < |stages| ==> stages[k].Queued? || stages[k].Done?
    ensures InUse(stages) == 0
  {
    if stages != [] {
      NoneHolds(stages[..|stages| - 1]);
    }
  }

  /** The chunks may be rendered one after the other, each returning its path. */
  lemma {:induction false} ServedInTurn(parallel: int, paths: seq<string>, s: State, i: nat) returns (steps: seq<Action>, t: State)
    requires ServedTo(s, paths, i)
    ensures Run(parallel, s, steps, t) && Returned(t) && ServedTo(t, paths, |paths|)
    decreases |paths| - i
  {
    if i == |paths| {
      steps, t := [], s;
    } else {
      NoneHolds(s.stages);
      var a := Apply(parallel, s, Acquire(i));
      var b := Apply(parallel, a, Begin(i));
      var next := Apply(parallel, b, Finish(i, Ok(paths[i])));
      var rest;
      rest, t := ServedInTurn(parallel, paths, next, i + 1);
      steps := [Acquire(i), Begin(i), Finish(i, Ok(paths[i]))] + rest;
      assert steps[1..] == [Begin(i), Finish(i, Ok(paths[i]))] + rest && steps[1..][1..] == [Finish(i, Ok(paths[i]))] + rest;
      assert steps[1..][1..][1..] == rest;
    }
  }

  ghost predicate GivenUpTo(s: State, i: nat) {
    && |s.stages| == |s.out| == |s.finished| && i <= |s.stages|
    && (forall k :: 0 <= k < |s.stages| ==> s.stages[k] == if k < i then Done else Queued)
  }

  /** After a cancel, every goroutine that still waits for the semaphore may return at once. */
  lemma {:induction false} AllGiveUp(parallel: int, s: State, i: nat) returns (steps: seq<Action>, t: State)
    requires s.cancelled && GivenUpTo(s, i)
    ensures Run(parallel, s, steps, t) && Returned(t)
    ensures t.out == s.out && t.firstErr == s.firstErr
    decreases |s.stages| - i
  {
    if i == |s.stages| {
      steps, t := [], s;
    } else {
      var next := Apply(parallel, s, GiveUp(i));
      var rest;
      rest, t := AllGiveUp(parallel, next, i + 1);
      steps := [GiveUp(i)] + rest;
      assert steps[1..] == rest;
    }
  }

  /** A caller that cancels can get a result without an error and without a single path, for every number of chunks. */
  lemma CancelledOutsideLosesSlots(parallel: int, chunks: nat) returns (steps: seq<Action>, s: State)
    ensures Run(parallel, Start(chunks), steps, s) && Returned(s)
    ensures s.firstErr.None? && s.out == seq(chunks, _ => None)
  {
    var cancelled := Apply(parallel, Start(chunks), CancelOutside);
    var rest;
    rest, s := AllGiveUp(parallel, cancelled, 0);
    steps := [CancelOutside] + rest;
    assert steps[1..] == rest;
  }
}
