/** The semantic graph checks of the deep validator, over a flow that passed construction. */
module Validate {
  import opened Common
  import opened StateMachine

  /** `r` is closed under edges, except that edges into `skip` may be missing. */
  ghost predicate ClosedExcept(f: Flow, r: set<NodeId>, skip: set<NodeId>) {
    forall a, b :: a in r && Edge(f, a, b) && b !in skip ==> b in r
  }

  lemma {:induction false} WalkStaysInside(f: Flow, r: set<NodeId>, p: seq<NodeId>, k: nat)
    requires ClosedExcept(f, r, {}) && IsWalk(f, p) && k < |p| && p[0] in r
    ensures p[k] in r
  {
    if k > 0 {
      WalkStaysInside(f, r, p, k - 1);
      assert StepAt(f, p, k - 1);
    }
  }

  /** The worklist from the start: what is explored or waiting is reachable, and no edge has been forgotten. */
  ghost predicate Spreading(f: Flow, r: set<NodeId>, stack: seq<NodeId>) {
    && r <= f.nodes.Keys
    && (forall n :: n in stack || n in r ==> n in f.nodes && Reachable(f, f.start, n))
    && (f.start in stack || f.start in r)
    && (forall a, b :: a in r && Edge(f, a, b) ==> b in r || b in stack)
  }

  /** The worklist computes exactly the nodes some walk from the start reaches; the rest are warned about. */
  method CheckReachability(f: Flow) returns (reachable: set<NodeId>, warnings: seq<NodeId>)
    requires Valid(f)
    ensures forall n :: n in reachable <==> Reachable(f, f.start, n)
    ensures warnings == Without(f.order, reachable)
  {
    reachable := {};
    var stack := [f.start];
    assert WalkFromTo(f, [f.start], f.start, f.start);
    while stack != []
      invariant Spreading(f, reachable, stack)
      decreases f.nodes.Keys - reachable, |stack|
    {
      var cur := stack[|stack| - 1];
      var rest := stack[..|stack| - 1];
      SplitLast(stack);
      if cur in reachable {
        SpreadSkip(f, reachable, rest, cur);
        stack := rest;
        continue;
      }
      assert cur in stack;
      var targets := ComputeSuccessors(f.nodes[cur]);
      Spread(f, reachable, rest, cur);
      reachable := reachable + {cur};
      stack := rest + Without(targets, reachable);
    }
    SpreadDone(f, reachable);
    warnings := DeadIslands(f.order, reachable);
  }

  method DeadIslands(order: seq<NodeId>, reachable: set<NodeId>) returns (warnings: seq<NodeId>)
    ensures warnings == Without(order, reachable)
  {
    warnings := [];
    for i := 0 to |order|
      invariant warnings == Without(order[..i], reachable)
    {
      TakeOneMore(order, i);
      WithoutSnoc(order[..i], order[i], reachable);
      if order[i] !in reachable {
        warnings := warnings + [order[i]];
      }
    }
    assert order[..|order|] == order;
  }

  lemma SpreadSkip(f: Flow, r: set<NodeId>, rest: seq<NodeId>, cur: NodeId)
    requires Spreading(f, r, rest + [cur]) && cur in r
    ensures Spreading(f, r, rest)
  {
    assert forall s :: s in rest + [cur] <==> s in rest || s == cur;
  }

  lemma Spread(f: Flow, r: set<NodeId>, rest: seq<NodeId>, cur: NodeId)
    requires Valid(f) && Spreading(f, r, rest + [cur])
    ensures cur in f.nodes
    ensures Spreading(f, r + {cur}, rest + Without(Successors(f.nodes[cur]), r + {cur}))
  {
    assert forall s :: s in rest + [cur] <==> s in rest || s == cur;
    var more := Without(Successors(f.nodes[cur]), r + {cur});
    assert forall s :: s in rest + more <==> s in rest || s in more;
    forall s | s in rest + more || s in r + {cur} ensures s in f.nodes && Reachable(f, f.start, s) {
      if s in more {
        SuccessorsInside(f, cur, s);
        ReachStep(f, f.start, cur, s);
      }
    }
    forall a, b | a in r + {cur} && Edge(f, a, b) ensures b in r + {cur} || b in rest + more {
      if a == cur {
        assert b in Successors(f.nodes[cur]);
      }
    }
  }

  /** When nothing is waiting, the explored set is all that can be reached. */
  lemma SpreadDone(f: Flow, r: set<NodeId>)
    requires Spreading(f, r, [])
    ensures forall n :: n in r <==> Reachable(f, f.start, n)
  {
    forall n | Reachable(f, f.start, n) ensures n in r {
      var p :| WalkFromTo(f, p, f.start, n);
      WalkStaysInside(f, r, p, |p| - 1);
    }
  }

  lemma SuccessorsInside(f: Flow, a: NodeId, b: NodeId)
    requires Valid(f) && a in f.nodes && IsSuccessor(f.nodes[a], b)
    ensures b in f.nodes && Edge(f, a, b)
  {
    assert NodeValid(f, f.nodes[a]);
  }

  // ---- rework loops -----------------------------------------------------

  /** A closed walk through `n` that also visits some other node. */
  ghost predicate LoopThroughOther(f: Flow, p: seq<NodeId>, n: NodeId) {
    WalkFromTo(f, p, n, n) && exists i :: 0 <= i < |p| && p[i] != n
  }

  ghost predicate OnReworkLoop(f: Flow, n: NodeId) {
    exists p :: LoopThroughOther(f, p, n)
  }

  /** `r` holds the nodes a walk from `n` visits before it comes back to `n`. */
  ghost predicate Surrounds(f: Flow, r: set<NodeId>, n: NodeId) {
    && n !in r
    && (forall b :: Edge(f, n, b) && b != n ==> b in r)
    && ClosedExcept(f, r, {n})
  }

  /** The worklist around `n`: what is explored or waiting is reachable, and no edge has been forgotten. */
  ghost predicate Exploring(f: Flow, n: NodeId, r: set<NodeId>, stack: seq<NodeId>) {
    && r <= f.nodes.Keys && n !in r
    && (forall s :: s in stack || s in r ==> s in f.nodes && Reachable(f, n, s))
    && (forall b :: Edge(f, n, b) && b != n ==> b in r || b in stack)
    && (forall a, b :: a in r && Edge(f, a, b) && b != n ==> b in r || b in stack)
  }

  ghost predicate HasBackEdge(f: Flow, r: set<NodeId>, n: NodeId) {
    exists a :: a in r && Edge(f, a, n)
  }

  /** Counts the warnings for `n`: one per other node it can reach that has an edge back to it. */
  method ReworkWarnings(f: Flow, n: NodeId) returns (hits: nat)
    requires Valid(f) && n in f.nodes
    ensures hits > 0 <==> OnReworkLoop(f, n)
  {
    var reachable: set<NodeId> := {};
    hits := 0;
    var stack := ComputeSuccessors(f.nodes[n]);
    StartExploring(f, n);
    while stack != []
      invariant Exploring(f, n, reachable, stack)
      invariant hits > 0 <==> HasBackEdge(f, reachable, n)
      decreases f.nodes.Keys - reachable, |stack|
    {
      var cur := stack[|stack| - 1];
      var rest := stack[..|stack| - 1];
      SplitLast(stack);
      if cur in reachable || cur == n {
        ExploreSkip(f, n, reachable, rest, cur);
        stack := rest;
        continue;
      }
      assert cur in rest + [cur];
      var targets := ComputeSuccessors(f.nodes[cur]);
      Explore(f, n, reachable, rest, cur);
      ExploreBackEdge(f, n, reachable, cur);
      if n in targets {
        hits := hits + 1;
      }
      reachable := reachable + {cur};
      stack := rest + Without(targets, reachable + {n});
    }
    LoopIffBackEdge(f, reachable, n);
  }

  lemma EdgeReaches(f: Flow, a: NodeId, b: NodeId)
    requires Edge(f, a, b)
    ensures Reachable(f, a, b)
  {
    assert WalkFromTo(f, [a, b], a, b);
  }

  lemma StartExploring(f: Flow, n: NodeId)
    requires Valid(f) && n in f.nodes
    ensures Exploring(f, n, {}, Successors(f.nodes[n]))
  {
    hide IsWalk, Reachable, Valid;
    forall s | s in Successors(f.nodes[n]) ensures s in f.nodes && Reachable(f, n, s) {
      SuccessorsInside(f, n, s);
      EdgeReaches(f, n, s);
    }
  }

  lemma Explore(f: Flow, n: NodeId, r: set<NodeId>, rest: seq<NodeId>, cur: NodeId)
    requires Valid(f) && cur != n && Exploring(f, n, r, rest + [cur])
    ensures cur in f.nodes
    ensures Exploring(f, n, r + {cur}, rest + Without(Successors(f.nodes[cur]), r + {cur} + {n}))
  {
    assert forall s :: s in rest + [cur] <==> s in rest || s == cur;
    var more := Without(Successors(f.nodes[cur]), r + {cur} + {n});
    assert forall s :: s in rest + more <==> s in rest || s in more;
    forall s | s in rest + more || s in r + {cur} ensures s in f.nodes && Reachable(f, n, s) {
      if s in more {
        SuccessorsInside(f, cur, s);
        ReachStep(f, n, cur, s);
      }
    }
    forall a, b | a in r + {cur} && Edge(f, a, b) && b != n ensures b in r + {cur} || b in rest + more {
      if a == cur {
        assert b in Successors(f.nodes[cur]);
      }
    }
  }

  lemma ExploreSkip(f: Flow, n: NodeId, r: set<NodeId>, rest: seq<NodeId>, cur: NodeId)
    requires Exploring(f, n, r, rest + [cur])
    requires cur in r || cur == n
    ensures Exploring(f, n, r, rest)
  {
    assert forall s :: s in rest + [cur] <==> s in rest || s == cur;
  }

  lemma ExploreBackEdge(f: Flow, n: NodeId, r: set<NodeId>, cur: NodeId)
    requires cur in f.nodes
    ensures HasBackEdge(f, r + {cur}, n) <==> HasBackEdge(f, r, n) || n in Successors(f.nodes[cur])
  {
    assert n in Successors(f.nodes[cur]) <==> Edge(f, cur, n);
    if HasBackEdge(f, r, n) {
      var a :| a in r && Edge(f, a, n);
      assert a in r + {cur};
    }
    if Edge(f, cur, n) { assert cur in r + {cur}; }
  }

  lemma LoopIffBackEdge(f: Flow, r: set<NodeId>, n: NodeId)
    requires Exploring(f, n, r, [])
    ensures HasBackEdge(f, r, n) <==> OnReworkLoop(f, n)
  {
    if HasBackEdge(f, r, n) {
      var a :| a in r && Edge(f, a, n);
      BackEdgeMakesLoop(f, n, a);
    }
    if OnReworkLoop(f, n) {
      var p :| LoopThroughOther(f, p, n);
      LoopHasBackEdge(f, r, p, n);
    }
  }

  lemma BackEdgeMakesLoop(f: Flow, n: NodeId, a: NodeId)
    requires a != n && Reachable(f, n, a) && Edge(f, a, n)
    ensures OnReworkLoop(f, n)
  {
    var p :| WalkFromTo(f, p, n, a);
    var q := p + [n];
    forall i | 0 <= i < |q| - 1 ensures StepAt(f, q, i) {
      if i < |p| - 1 { assert StepAt(f, p, i); }
    }
    assert q[|p| - 1] == a;
    assert LoopThroughOther(f, q, n);
  }

  lemma {:induction false} OthersAreSurrounded(f: Flow, r: set<NodeId>, p: seq<NodeId>, n: NodeId, k: nat)
    requires Surrounds(f, r, n) && IsWalk(f, p) && k < |p| && p[0] == n
    ensures p[k] != n ==> p[k] in r
  {
    if k > 0 {
      OthersAreSurrounded(f, r, p, n, k - 1);
      assert StepAt(f, p, k - 1);
    }
  }

  lemma LoopHasBackEdge(f: Flow, r: set<NodeId>, p: seq<NodeId>, n: NodeId)
    requires Surrounds(f, r, n) && LoopThroughOther(f, p, n)
    ensures HasBackEdge(f, r, n)
  {
    var i :| 0 <= i < |p| && p[i] != n;
    while p[i + 1] != n
      invariant 0 <= i < |p| - 1 && p[i] != n
      decreases |p| - i
    {
      i := i + 1;
    }
    OthersAreSurrounded(f, r, p, n, i);
    assert StepAt(f, p, i);
  }

  /** Runs the loop check on every node; a bare self-edge alone never triggers it. */
  method CheckBranchCycles(f: Flow) returns (warnings: seq<NodeId>)
    requires Valid(f)
    ensures forall n :: n in warnings <==> n in f.nodes && OnReworkLoop(f, n)
  {
    warnings := [];
    for i := 0 to |f.order|
      invariant forall n :: n in warnings <==> n in f.order[..i] && OnReworkLoop(f, n)
    {
      var hits := ReworkWarnings(f, f.order[i]);
      TakeOneMore(f.order, i);
      var found := seq(hits, _ => f.order[i]);
      if hits > 0 { assert found[0] in found; }
      warnings := warnings + found;
    }
    assert f.order[..|f.order|] == f.order;
  }

  /** The spine check reports an error exactly when the `next` spine has no end. */
  method CheckSpineCycles(f: Flow) returns (errors: seq<PathError>)
    requires Valid(f)
    ensures errors == [] <==> HasSpine(f)
    ensures |errors| <= 1
  {
    var r := FlowPath(f);
    errors := if r.Err? then [r.error] else [];
  }
}
