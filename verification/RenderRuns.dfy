/** Building runs of RenderPaths piece by piece: of one chunk's tree, and of a whole job. */
module RenderRuns {
  import opened Types
  import opened RenderPaths

  // ---------------------------------------------------------------- runs of one chunk's tree

  ghost predicate NodeRun(oom: Oom, files: Files, node: Node, ats: seq<seq<Turn>>, files': Files, node': Node)
    decreases |ats|
  {
    if ats == [] then files' == files && node' == node
    else
      && NodeEnabled(files, node, ats[0])
      && var (f, n) := NodeApply(oom, files, node, ats[0]);
         NodeRun(oom, f, n, ats[1..], files', node')
  }

  /** The node reached by these turns; turns that lead out of the tree count for nothing. */
  function NodeAt(node: Node, at: seq<Turn>): Node
    decreases |at|
  {
    if at == [] || !node.Split? then node else NodeAt(Half(node, at[0]), at[1..])
  }

  ghost predicate IsPlace(node: Node, at: seq<Turn>)
    decreases |at|
  {
    at == [] || (node.Split? && IsPlace(Half(node, at[0]), at[1..]))
  }

  /** The steps do nothing but begin renders: no merge, and no failure handed up. */
  ghost predicate Descends(oom: Oom, files: Files, node: Node, ats: seq<seq<Turn>>)
    decreases |ats|
  {
    ats == [] ||
    (&& NodeEnabled(files, node, ats[0]) && NodeAt(node, ats[0]).Todo?
     && var (f, n) := NodeApply(oom, files, node, ats[0]);
        Descends(oom, f, n, ats[1..]))
  }

  lemma {:induction false} NodeRunJoin(oom: Oom, f0: Files, n0: Node, a: seq<seq<Turn>>, f1: Files, n1: Node, b: seq<seq<Turn>>, f2: Files, n2: Node)
    requires NodeRun(oom, f0, n0, a, f1, n1) && NodeRun(oom, f1, n1, b, f2, n2)
    ensures NodeRun(oom, f0, n0, a + b, f2, n2)
    ensures Descends(oom, f0, n0, a) && Descends(oom, f1, n1, b) ==> Descends(oom, f0, n0, a + b)
    decreases |a|
  {
    if a == [] {
      assert a + b == b;
    } else {
      var (f, n) := NodeApply(oom, f0, n0, a[0]);
      NodeRunJoin(oom, f, n, a[1..], f1, n1, b, f2, n2);
      assert (a + b)[1..] == a[1..] + b;
    }
  }

  function Below(turn: Turn, ats: seq<seq<Turn>>): seq<seq<Turn>> {
    seq(|ats|, i requires 0 <= i < |ats| => [turn] + ats[i])
  }

  function WithHalf(node: Node, turn: Turn, half: Node): Node
    requires node.Split?
  {
    if turn.L? then node.(left := half) else node.(right := half)
  }

  function Half(node: Node, turn: Turn): Node
    requires node.Split?
  {
    if turn.L? then node.left else node.right
  }

  /** A run of one half is a run of the whole, leaving the other half alone. */
  lemma {:induction false} NodeRunBelow(oom: Oom, files: Files, node: Node, turn: Turn, ats: seq<seq<Turn>>, files': Files, half': Node)
    requires node.Split? && NodeRun(oom, files, Half(node, turn), ats, files', half')
    ensures NodeRun(oom, files, node, Below(turn, ats), files', WithHalf(node, turn, half'))
    ensures Descends(oom, files, Half(node, turn), ats) ==> Descends(oom, files, node, Below(turn, ats))
    decreases |ats|
  {
    if ats != [] {
      var (f, n) := NodeApply(oom, files, Half(node, turn), ats[0]);
      var at := [turn] + ats[0];
      assert at[1..] == ats[0];
      assert NodeApply(oom, files, node, at) == (f, WithHalf(node, turn, n));
      NodeRunBelow(oom, f, WithHalf(node, turn, n), turn, ats[1..], files', half');
      assert Below(turn, ats)[1..] == Below(turn, ats[1..]);
      assert WithHalf(WithHalf(node, turn, n), turn, half') == WithHalf(node, turn, half');
    } else {
      assert WithHalf(node, turn, half') == node;
    }
  }

  lemma NodeStep(oom: Oom, files: Files, node: Node, files': Files, node': Node)
    requires NodeEnabled(files, node, []) && NodeApply(oom, files, node, []) == (files', node')
    ensures NodeRun(oom, files, node, [[]], files', node')
    ensures node.Todo? ==> Descends(oom, files, node, [[]])
  {
  }

  // ---------------------------------------------------------------- runs of the whole job

  lemma {:induction false} RunJoin(oom: Oom, parallel: int, a: Job, s: seq<Action>, b: Job, t: seq<Action>, c: Job)
    requires Run(oom, parallel, a, s, b) && Run(oom, parallel, b, t, c)
    ensures Run(oom, parallel, a, s + t, c)
    decreases |s|
  {
    if s == [] {
      assert s + t == t;
    } else {
      RunJoin(oom, parallel, Apply(oom, parallel, a, s[0]), s[1..], b, t, c);
      assert (s + t)[1..] == s[1..] + t;
    }
  }

  function StepsOf(k: nat, ats: seq<seq<Turn>>): seq<Action> {
    seq(|ats|, i requires 0 <= i < |ats| => Step(k, ats[i]))
  }

  /** A run of chunk k's tree is a run of the job. */
  lemma {:induction false} NodeRunInJob(oom: Oom, parallel: int, j: Job, k: nat, ats: seq<seq<Turn>>, files': Files, node': Node)
    requires k < |j.nodes| && NodeRun(oom, j.files, j.nodes[k], ats, files', node')
    ensures Run(oom, parallel, j, StepsOf(k, ats), Job(files', j.nodes[k := node']))
    decreases |ats|
  {
    if ats != [] {
      var (f, n) := NodeApply(oom, j.files, j.nodes[k], ats[0]);
      var j' := Job(f, j.nodes[k := n]);
      NodeRunInJob(oom, parallel, j', k, ats[1..], files', node');
      assert StepsOf(k, ats)[1..] == StepsOf(k, ats[1..]);
      assert j'.nodes[k := node'] == j.nodes[k := node'];
    } else {
      assert j.nodes[k := node'] == j.nodes;
    }
  }

  lemma {:induction false} ActiveUpdate(nodes: seq<Node>, k: nat, chunk: Chunk)
    requires k < |nodes| && nodes[k].Waiting?
    ensures Active(nodes[k := Todo(chunk)]) == Active(nodes) + 1
  {
    var n := |nodes|;
    if k == n - 1 {
      assert nodes[k := Todo(chunk)][..n - 1] == nodes[..n - 1];
    } else {
      ActiveUpdate(nodes[..n - 1], k, chunk);
      assert nodes[k := Todo(chunk)][..n - 1] == nodes[..n - 1][k := Todo(chunk)];
    }
  }

  lemma {:induction false} NoneActive(nodes: seq<Node>)
    requires forall node <- nodes :: !node.Todo? && !node.Split?
    ensures Active(nodes) == 0
  {
    if nodes != [] {
      assert nodes[|nodes| - 1] in nodes;
      NoneActive(nodes[..|nodes| - 1]);
    }
  }

  lemma Begun(oom: Oom, parallel: int, j: Job, k: nat)
    requires k < |j.nodes| && j.nodes[k].Waiting? && Active(j.nodes) < parallel
    ensures Run(oom, parallel, j, [Begin(k)], j.(nodes := j.nodes[k := Todo(j.nodes[k].chunk)]))
    ensures Active(j.nodes[k := Todo(j.nodes[k].chunk)]) == Active(j.nodes) + 1
  {
    var a := Begin(k);
    ActiveUpdate(j.nodes, k, j.nodes[k].chunk);
    assert [a][1..] == [];
    assert Run(oom, parallel, Apply(oom, parallel, j, a), [], Apply(oom, parallel, j, a));
  }

  /** Two neighbouring chunks begun together. */
  lemma BegunTwo(oom: Oom, parallel: int, j: Job, k: nat)
    requires k + 1 < |j.nodes| && j.nodes[k].Waiting? && j.nodes[k + 1].Waiting? && Active(j.nodes) + 1 < parallel
    ensures Run(oom, parallel, j, [Begin(k)] + [Begin(k + 1)],
                j.(nodes := j.nodes[k := Todo(j.nodes[k].chunk)][k + 1 := Todo(j.nodes[k + 1].chunk)]))
  {
    Begun(oom, parallel, j, k);
    var s1 := j.(nodes := j.nodes[k := Todo(j.nodes[k].chunk)]);
    Begun(oom, parallel, s1, k + 1);
    var s2 := s1.(nodes := s1.nodes[k + 1 := Todo(s1.nodes[k + 1].chunk)]);
    RunJoin(oom, parallel, j, [Begin(k)], s1, [Begin(k + 1)], s2);
  }
}
