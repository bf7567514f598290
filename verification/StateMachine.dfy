/**
 A loaded flow and its traversal: successor lists, the linear `next` spine, and
 the walks the graph checks and the workflow are stated over.
 */
module StateMachine {
  import opened Common

  type NodeId = string

  datatype NodeType = Agent | Judge | Tool | Route | Gate

  datatype Branch = Branch(when: string, goto: NodeId)

  datatype Node = Node(
    kind: NodeType,
    role: string,
    next: Option<NodeId>,
    branches: seq<Branch>,
    tool: string,
    verify: bool)

  /** `order` lists the node ids in declaration order, as iterating the nodes does. */
  datatype Flow = Flow(nodes: map<NodeId, Node>, order: seq<NodeId>, start: NodeId)

  /** What construction checks. An empty `next` passes: only a non-empty one is looked up. */
  ghost predicate Valid(f: Flow) {
    && f.start in f.nodes
    && Distinct(f.order)
    && (forall n :: n in f.order <==> n in f.nodes)
    && (forall n :: n in f.nodes ==> NodeValid(f, f.nodes[n]))
  }

  ghost predicate NodeValid(f: Flow, n: Node) {
    && (n.next.Some? && n.next.value != "" ==> n.next.value in f.nodes)
    && (forall b :: b in n.branches ==> b.goto in f.nodes)
    && (n.kind == Tool ==> n.tool != "")
    && (n.kind in {Route, Gate} ==> n.branches != [])
  }

  // ---- successors -------------------------------------------------------

  /** The edges an accepted reviewer verdict may take: a non-empty `next`, or a branch. */
  predicate IsSuccessor(n: Node, t: NodeId) {
    (n.next == Some(t) && t != "") || exists b :: b in n.branches && b.goto == t
  }

  function Successors(n: Node): (targets: seq<NodeId>)
    ensures Distinct(targets)
    ensures forall t :: t in targets <==> IsSuccessor(n, t)
  {
    AddGotos(if n.next.Some? && n.next.value != "" then [n.next.value] else [], n.branches)
  }

  function AddGotos(targets: seq<NodeId>, branches: seq<Branch>): (r: seq<NodeId>)
    requires Distinct(targets)
    ensures Distinct(r)
    ensures forall t :: t in r <==> t in targets || exists b :: b in branches && b.goto == t
    decreases |branches|
  {
    if branches == [] then targets
    else
      AddGotos(if branches[0].goto in targets then targets else targets + [branches[0].goto], branches[1..])
  }

  lemma AddGotosAt(targets: seq<NodeId>, branches: seq<Branch>, i: nat)
    requires Distinct(targets) && i < |branches|
    ensures var g := branches[i].goto;
            var more := if g in targets then targets else targets + [g];
            Distinct(more) && AddGotos(targets, branches[i..]) == AddGotos(more, branches[i + 1..])
  {
    assert branches[i..][0] == branches[i] && branches[i..][1..] == branches[i + 1..];
  }

  method ComputeSuccessors(n: Node) returns (targets: seq<NodeId>)
    ensures targets == Successors(n)
  {
    hide IsSuccessor;
    assert n.branches[0..] == n.branches;
    targets := if n.next.Some? && n.next.value != "" then [n.next.value] else [];
    for i := 0 to |n.branches|
      invariant Distinct(targets)
      invariant AddGotos(targets, n.branches[i..]) == Successors(n)
    {
      hide AddGotos, Successors, Distinct;
      AddGotosAt(targets, n.branches, i);
      if n.branches[i].goto !in targets {
        targets := targets + [n.branches[i].goto];
      }
    }
  }

  // ---- walks ------------------------------------------------------------

  ghost predicate Edge(f: Flow, a: NodeId, b: NodeId) {
    a in f.nodes && IsSuccessor(f.nodes[a], b)
  }

  ghost predicate StepAt(f: Flow, p: seq<NodeId>, i: nat)
    requires i + 1 < |p|
  {
    Edge(f, p[i], p[i + 1])
  }

  ghost predicate IsWalk(f: Flow, p: seq<NodeId>) {
    forall i :: 0 <= i < |p| - 1 ==> StepAt(f, p, i)
  }

  ghost predicate WalkFromTo(f: Flow, p: seq<NodeId>, a: NodeId, b: NodeId) {
    |p| > 0 && p[0] == a && p[|p| - 1] == b && IsWalk(f, p)
  }

  ghost predicate Reachable(f: Flow, a: NodeId, b: NodeId) {
    exists p :: WalkFromTo(f, p, a, b)
  }

  lemma ReachStep(f: Flow, a: NodeId, b: NodeId, c: NodeId)
    requires Reachable(f, a, b) && Edge(f, b, c)
    ensures Reachable(f, a, c)
  {
    var p :| WalkFromTo(f, p, a, b);
    var q := p + [c];
    forall i | 0 <= i < |q| - 1 ensures StepAt(f, q, i) {
      if i < |p| - 1 { assert StepAt(f, p, i); }
    }
    assert WalkFromTo(f, q, a, c);
  }

  lemma WalkReaches(f: Flow, p: seq<NodeId>, i: nat)
    requires IsWalk(f, p) && i < |p|
    ensures Reachable(f, p[0], p[i])
  {
    var q := p[..i + 1];
    forall k | 0 <= k < |q| - 1 ensures StepAt(f, q, k) { assert StepAt(f, p, k); }
    assert WalkFromTo(f, q, p[0], p[i]);
  }

  // ---- the linear spine -------------------------------------------------

  /** The node `k` steps of `next` away from the start; None once the spine has ended. */
  ghost function SpineAt(f: Flow, k: nat): Option<NodeId> {
    if k == 0 then Some(f.start)
    else
      var before := SpineAt(f, k - 1);
      if before.Some? && before.value in f.nodes then f.nodes[before.value].next else None
  }

  /** `p` is the whole spine: it starts at the start, follows `next`, and ends at a terminal node. */
  ghost predicate IsSpine(f: Flow, p: seq<NodeId>) {
    && |p| > 0
    && p[0] == f.start
    && (forall i :: 0 <= i < |p| ==> p[i] in f.nodes)
    && (forall i :: 0 <= i < |p| - 1 ==> f.nodes[p[i]].next == Some(p[i + 1]))
    && f.nodes[p[|p| - 1]].next == None
  }

  ghost predicate SpineRepeats(f: Flow) {
    exists i, j ::
      0 <= i < j && SpineAt(f, i).Some? && SpineAt(f, i) == SpineAt(f, j)
  }

  ghost predicate HasSpine(f: Flow) {
    exists p :: IsSpine(f, p)
  }

  /** The spine names a node the flow does not have (only an empty `next` can do that in a valid flow). */
  ghost predicate SpineLeaves(f: Flow) {
    exists k: nat :: SpineAt(f, k).Some? && SpineAt(f, k).value !in f.nodes
  }

  datatype PathError = CycleAt(node: NodeId) | NoNode(node: NodeId)

  /** Walks the spine until it ends, repeats, or leaves the flow. */
  method FlowPath(f: Flow) returns (r: Result<seq<NodeId>, PathError>)
    requires f.start in f.nodes
    ensures r.Ok? ==> IsSpine(f, r.value) && Distinct(r.value)
    ensures r.Ok? <==> HasSpine(f)
    ensures (r.Err? && r.error.CycleAt?) <==> SpineRepeats(f)
    ensures (r.Err? && r.error.NoNode?) <==> SpineLeaves(f)
  {
    var path: seq<NodeId> := [];
    var seen: set<NodeId> := {};
    var cur := Some(f.start);
    while cur.Some?
      invariant SpineSoFar(f, path, cur)
      invariant forall n :: n in seen <==> n in path
      invariant seen <= f.nodes.Keys
      decreases |f.nodes.Keys - seen|
    {
      var here := cur.value;
      if here in seen {
        RepeatFound(f, path, here);
        return Err(CycleAt(here));
      }
      seen := seen + {here};
      if here !in f.nodes {
        DanglingEndsSpine(f, |path|);
        return Err(NoNode(here));
      }
      cur := f.nodes[here].next;
      SpineGrows(f, path, here);
      path := path + [here];
    }
    SpineEndsUnique(f, path);
    r := Ok(path);
  }

  /** The loop has collected `path` and stands at `cur`. */
  ghost predicate SpineSoFar(f: Flow, path: seq<NodeId>, cur: Option<NodeId>) {
    && SpineAt(f, |path|) == cur
    && (forall i :: 0 <= i < |path| ==> SpineAt(f, i) == Some(path[i]) && path[i] in f.nodes)
    && Distinct(path)
    && (cur == None ==> path != [] && IsSpine(f, path))
  }

  lemma SpineGrows(f: Flow, path: seq<NodeId>, here: NodeId)
    requires SpineSoFar(f, path, Some(here)) && here in f.nodes && here !in path
    ensures SpineSoFar(f, path + [here], f.nodes[here].next)
  {
    var p := path + [here];
    forall i | 0 <= i < |p| ensures SpineAt(f, i) == Some(p[i]) && p[i] in f.nodes {
      if i < |path| { assert p[i] == path[i]; }
    }
    forall i | 0 <= i < |p| - 1 ensures f.nodes[p[i]].next == Some(p[i + 1]) {
      assert SpineAt(f, i + 1) == Some(p[i + 1]);
    }
    assert SpineAt(f, 0) == Some(p[0]);
  }

  lemma RepeatFound(f: Flow, path: seq<NodeId>, here: NodeId)
    requires SpineSoFar(f, path, Some(here)) && here in path
    ensures SpineRepeats(f) && !HasSpine(f) && !SpineLeaves(f)
  {
    var i :| 0 <= i < |path| && path[i] == here;
    RepeatNeverEnds(f, i, |path|);
    NoSpineWhenAlwaysInside(f);
  }

  /** If the spine visits a node twice it never ends and never leaves the flow. */
  lemma RepeatNeverEnds(f: Flow, i: nat, j: nat)
    requires i < j && SpineAt(f, i).Some? && SpineAt(f, i) == SpineAt(f, j)
    ensures forall k: nat :: SpineAt(f, k).Some? && SpineAt(f, k).value in f.nodes
  {
    forall k: nat ensures SpineAt(f, k).Some? && SpineAt(f, k).value in f.nodes {
      SpineInside(f, i, j, k);
    }
  }

  lemma {:induction false} SpineInside(f: Flow, i: nat, j: nat, k: nat)
    requires i < j && SpineAt(f, i).Some? && SpineAt(f, i) == SpineAt(f, j)
    ensures SpineAt(f, k).Some? && SpineAt(f, k).value in f.nodes
    decreases k
  {
    if k < j {
      SpinePrefix(f, k, j);
    } else {
      SpineShift(f, i, j, k - j);
      SpineInside(f, i, j, i + (k - j));
    }
  }

  /** Before the last step the spine is defined and inside the flow. */
  lemma {:induction false} SpinePrefix(f: Flow, k: nat, j: nat)
    requires k < j && SpineAt(f, j).Some?
    ensures SpineAt(f, k).Some? && SpineAt(f, k).value in f.nodes
    decreases j
  {
    if k < j - 1 { SpinePrefix(f, k, j - 1); }
  }

  lemma {:induction false} SpineShift(f: Flow, i: nat, j: nat, m: nat)
    requires SpineAt(f, i) == SpineAt(f, j)
    ensures SpineAt(f, i + m) == SpineAt(f, j + m)
  {
    if m > 0 { SpineShift(f, i, j, m - 1); }
  }

  lemma NoSpineWhenAlwaysInside(f: Flow)
    requires forall k: nat :: SpineAt(f, k).Some? && SpineAt(f, k).value in f.nodes
    ensures !HasSpine(f)
  {
    forall p | IsSpine(f, p) ensures false {
      SpineStops(f, p);
    }
  }

  lemma SpineStops(f: Flow, p: seq<NodeId>)
    requires IsSpine(f, p)
    ensures SpineAt(f, |p|) == None
  {
    SpineIs(f, p, |p| - 1);
  }

  lemma {:induction false} SpineIs(f: Flow, p: seq<NodeId>, k: nat)
    requires IsSpine(f, p) && k < |p|
    ensures SpineAt(f, k) == Some(p[k])
  {
    if k > 0 {
      SpineIs(f, p, k - 1);
      assert f.nodes[p[k - 1]].next == Some(p[k - 1 + 1]);
    }
  }

  lemma DanglingEndsSpine(f: Flow, k: nat)
    requires SpineAt(f, k).Some? && SpineAt(f, k).value !in f.nodes
    ensures SpineLeaves(f) && !SpineRepeats(f)
    ensures !HasSpine(f)
  {
    if SpineRepeats(f) {
      var i, j :| 0 <= i < j && SpineAt(f, i).Some? && SpineAt(f, i) == SpineAt(f, j);
      RepeatNeverEnds(f, i, j);
      assert false;
    }
    forall p | IsSpine(f, p) ensures false {
      if k < |p| {
        SpineIs(f, p, k);
      } else {
        SpineStops(f, p);
        if k > |p| { SpinePrefix(f, |p|, k); }
      }
    }
  }

  lemma SpineEndsUnique(f: Flow, p: seq<NodeId>)
    requires IsSpine(f, p)
    ensures HasSpine(f) && !SpineRepeats(f) && !SpineLeaves(f)
  {
    SpineStops(f, p);
    if SpineRepeats(f) {
      var i, j :| 0 <= i < j && SpineAt(f, i).Some? && SpineAt(f, i) == SpineAt(f, j);
      RepeatNeverEnds(f, i, j);
      assert false;
    }
    forall k: nat | SpineAt(f, k).Some? ensures SpineAt(f, k).value in f.nodes {
      if k < |p| { SpineIs(f, p, k); }
      else if k > |p| { SpinePrefix(f, |p|, k); }
    }
  }
}
