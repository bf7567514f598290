/**
 The grammar of conditions is unambiguous: a tree is determined by its tokens. At
 parenthesis depth zero the last `or` of an `or` tree is its own, and likewise for `and`.
 */
module Unambiguous {
  import opened Common
  import opened Branching
  import T = Tokenizer

  function Delta(t: Token): int {
    if t == LPar then 1 else if t == RPar then -1 else 0
  }

  /** How many parentheses are open behind the first `i` tokens. */
  function DepthAt(ts: seq<Token>, i: nat): int
    requires i <= |ts|
  {
    if i == 0 then 0 else DepthAt(ts, i - 1) + Delta(ts[i - 1])
  }

  ghost predicate TopAt(ts: seq<Token>, i: nat, t: Token) {
    i < |ts| && ts[i] == t && DepthAt(ts, i) == 0
  }

  lemma {:induction false} DepthFront(a: seq<Token>, b: seq<Token>, i: nat)
    requires i <= |a|
    ensures DepthAt(a + b, i) == DepthAt(a, i)
  {
    if i > 0 { DepthFront(a, b, i - 1); }
  }

  lemma {:induction false} DepthBehind(a: seq<Token>, b: seq<Token>, i: nat)
    requires i <= |b|
    ensures DepthAt(a + b, |a| + i) == DepthAt(a, |a|) + DepthAt(b, i)
  {
    if i == 0 {
      DepthFront(a, b, |a|);
    } else {
      DepthBehind(a, b, i - 1);
      assert (a + b)[|a| + i - 1] == b[i - 1];
    }
  }

  /** Never more closed than opened, and at the end as many. */
  ghost predicate Balanced(ts: seq<Token>) {
    DepthAt(ts, |ts|) == 0 && forall i :: 0 <= i <= |ts| ==> DepthAt(ts, i) >= 0
  }

  lemma BalancedJoin(a: seq<Token>, t: Token, b: seq<Token>)
    requires Balanced(a) && Balanced(b) && Delta(t) == 0
    ensures Balanced(a + [t] + b)
    ensures DepthAt(a + [t] + b, |a| + 1) == 0
  {
    var at := a + [t];
    DepthBehind(a, [t], 1);
    assert DepthAt([t], 1) == DepthAt([t], 0) + Delta(t);
    DepthBehind(at, b, 0);
    DepthBehind(at, b, |b|);
    forall i | 0 <= i <= |at + b| ensures DepthAt(at + b, i) >= 0 {
      if i <= |a| {
        DepthFront(at, b, i);
        DepthFront(a, [t], i);
      } else {
        DepthBehind(at, b, i - |at|);
      }
    }
  }

  lemma ParenDepth(x: seq<Token>, i: nat)
    requires Balanced(x) && i <= |x|
    ensures DepthAt([LPar] + x + [RPar], i + 1) == DepthAt(x, i) + 1
  {
    DepthFront([LPar] + x, [RPar], i + 1);
    DepthBehind([LPar], x, i);
    assert DepthAt([LPar], 1) == DepthAt([LPar], 0) + Delta(LPar);
  }

  lemma BalancedParen(x: seq<Token>)
    requires Balanced(x)
    ensures Balanced([LPar] + x + [RPar])
  {
    var p := [LPar] + x + [RPar];
    forall i | 0 <= i <= |p| ensures DepthAt(p, i) >= 0 && (i == |p| ==> DepthAt(p, i) == 0) {
      if 1 <= i <= |x| + 1 { ParenDepth(x, i - 1); }
      if i == |p| {
        ParenDepth(x, |x|);
        assert DepthAt(p, |p|) == DepthAt(p, |p| - 1) + Delta(p[|p| - 1]);
      }
    }
  }

  lemma BalancedNothing()
    ensures Balanced([])
  {
  }

  lemma Nest(e: Expr)
    ensures (IsUnary(e) ==> IsAnd(e)) && (IsAnd(e) ==> IsOr(e))
  {
    assert IsUnary(e) ==> !e.And? && !e.Or?;
    assert e.Or? ==> IsAnd(e) == IsUnary(e);
  }

  lemma LeafBalanced(e: Expr)
    requires IsOr(e) && (e.Bare? || e.Cmp?)
    ensures Balanced(Yield(e))
  {
    assert IsAnd(e) && IsUnary(e);
    ShortBalanced(Yield(e));
  }

  lemma {:induction false} YieldBalanced(e: Expr)
    requires IsOr(e)
    ensures Balanced(Yield(e))
    decreases e
  {
    hide Balanced;
    match e {
      case Or(l, r) =>
        Nest(r);
        YieldBalanced(l);
        YieldBalanced(r);
        BalancedJoin(Yield(l), OrT, Yield(r));
      case And(l, r) =>
        Nest(l);
        Nest(r);
        YieldBalanced(l);
        YieldBalanced(r);
        BalancedJoin(Yield(l), AndT, Yield(r));
      case Not(x) =>
        assert IsAnd(e) && IsUnary(e);
        Nest(x);
        YieldBalanced(x);
        BalancedNothing();
        BalancedJoin([], NotT, Yield(x));
        assert [] + [NotT] + Yield(x) == Yield(e);
      case Paren(x) =>
        assert IsAnd(e) && IsUnary(e);
        YieldBalanced(x);
        BalancedParen(Yield(x));
      case _ => LeafBalanced(e);
    }
  }

  lemma {:induction false} FlatDepth(ts: seq<Token>, i: nat)
    requires i <= |ts| && forall j :: 0 <= j < |ts| ==> Delta(ts[j]) == 0
    ensures DepthAt(ts, i) == 0
  {
    if i > 0 { FlatDepth(ts, i - 1); }
  }

  lemma ShortBalanced(ts: seq<Token>)
    requires forall j :: 0 <= j < |ts| ==> Delta(ts[j]) == 0
    ensures Balanced(ts)
  {
    forall i | 0 <= i <= |ts| ensures DepthAt(ts, i) == 0 { FlatDepth(ts, i); }
  }

  /** A token at depth zero of a joined yield stands in one of the parts, or is the joint. */
  lemma TopOfJoin(a: seq<Token>, t: Token, b: seq<Token>, i: nat, u: Token)
    requires Balanced(a) && Balanced(b) && Delta(t) == 0 && TopAt(a + [t] + b, i, u)
    ensures if i < |a| then TopAt(a, i, u) else if i == |a| then u == t else TopAt(b, i - |a| - 1, u)
  {
    var at := a + [t];
    BalancedJoin(a, t, b);
    if i < |a| {
      DepthFront(at, b, i);
      DepthFront(a, [t], i);
    } else if i > |a| {
      DepthBehind(at, b, i - |at|);
      DepthBehind(at, b, 0);
    }
  }

  lemma JoinIsTop(a: seq<Token>, t: Token, b: seq<Token>)
    requires Balanced(a) && Balanced(b) && Delta(t) == 0
    ensures TopAt(a + [t] + b, |a|, t)
  {
    DepthFront(a + [t], b, |a|);
    DepthFront(a, [t], |a|);
  }

  /** No `or` at depth zero below the `or` level, and no `and` below the `and` level. */
  lemma {:induction false} NoTop(e: Expr, i: nat)
    requires IsAnd(e)
    ensures !TopAt(Yield(e), i, OrT)
    ensures IsUnary(e) ==> !TopAt(Yield(e), i, AndT)
    decreases e
  {
    hide TopAt, Balanced;
    match e {
      case And(l, r) =>
        Nest(l);
        Nest(r);
        YieldBalanced(l);
        YieldBalanced(r);
        if i < |Yield(l)| { NoTop(l, i); } else if i > |Yield(l)| { NoTop(r, i - |Yield(l)| - 1); }
        if TopAt(Yield(e), i, OrT) { TopOfJoin(Yield(l), AndT, Yield(r), i, OrT); }
      case Not(x) =>
        Nest(x);
        YieldBalanced(x);
        assert [] + [NotT] + Yield(x) == Yield(e);
        BalancedNothing();
        if i > 0 { NoTop(x, i - 1); }
        if TopAt(Yield(e), i, OrT) { TopOfJoin([], NotT, Yield(x), i, OrT); }
        if TopAt(Yield(e), i, AndT) { TopOfJoin([], NotT, Yield(x), i, AndT); }
      case Paren(x) =>
        YieldBalanced(x);
        NoTopInside(Yield(x), i);
      case _ => NoTopFlat(e, i);
    }
  }

  lemma NoTopInside(x: seq<Token>, i: nat)
    requires Balanced(x)
    ensures var p := [LPar] + x + [RPar]; !TopAt(p, i, OrT) && !TopAt(p, i, AndT)
  {
    if 1 <= i <= |x| + 1 { ParenDepth(x, i - 1); }
  }

  lemma NoTopFlat(e: Expr, i: nat)
    requires IsUnary(e) && (e.Bare? || e.Cmp?)
    ensures !TopAt(Yield(e), i, OrT) && !TopAt(Yield(e), i, AndT)
  {
  }

  /** Two joins at depth zero, with no such joint in the right parts, are the same join. */
  lemma SameJoin(a: seq<Token>, b: seq<Token>, c: seq<Token>, d: seq<Token>, t: Token)
    requires Balanced(a) && Balanced(b) && Balanced(c) && Balanced(d) && Delta(t) == 0
    requires a + [t] + b == c + [t] + d
    requires forall i: nat :: !TopAt(b, i, t) && !TopAt(d, i, t)
    ensures a == c && b == d
  {
    hide Balanced, TopAt, Delta;
    JoinIsTop(a, t, b);
    JoinIsTop(c, t, d);
    TopOfJoin(a, t, b, |c|, t);
    TopOfJoin(c, t, d, |a|, t);
    assert |a| == |c|;
    assert a == (a + [t] + b)[..|a|] && c == (c + [t] + d)[..|c|];
    assert b == (a + [t] + b)[|a| + 1..] && d == (c + [t] + d)[|c| + 1..];
  }

  lemma {:induction false} OrInjective(e: Expr, f: Expr)
    requires IsOr(e) && IsOr(f) && Yield(e) == Yield(f)
    ensures e == f
    decreases e, 2
  {
    if e.Or? || f.Or? {
      if e.Or? { Nest(e.r); }
      if f.Or? { Nest(f.r); }
      if e.Or? { JoinTops(e.l, OrT, e.r); } else { JoinTops(f.l, OrT, f.r); }
      if !e.Or? { NoTop(e, |Yield(f.l)|); }
      if !f.Or? { NoTop(f, |Yield(e.l)|); }
      if e.Or? && f.Or? {
        RightParts(e.l, e.r, f.l, f.r, OrT);
        OrInjective(e.l, f.l);
        AndInjective(e.r, f.r);
      }
    } else {
      AndInjective(e, f);
    }
  }

  lemma {:induction false} AndInjective(e: Expr, f: Expr)
    requires IsAnd(e) && IsAnd(f) && Yield(e) == Yield(f)
    ensures e == f
    decreases e, 1
  {
    if e.And? || f.And? {
      if e.And? { Nest(e.l); Nest(e.r); }
      if f.And? { Nest(f.l); Nest(f.r); }
      if e.And? { JoinTops(e.l, AndT, e.r); } else { JoinTops(f.l, AndT, f.r); }
      if !e.And? { NoTop(e, |Yield(f.l)|); }
      if !f.And? { NoTop(f, |Yield(e.l)|); }
      if e.And? && f.And? {
        RightParts(e.l, e.r, f.l, f.r, AndT);
        AndInjective(e.l, f.l);
        UnaryInjective(e.r, f.r);
      }
    } else {
      UnaryInjective(e, f);
    }
  }

  lemma {:induction false} UnaryInjective(e: Expr, f: Expr)
    requires IsUnary(e) && IsUnary(f) && Yield(e) == Yield(f)
    ensures e == f
    decreases e, 0
  {
    assert Yield(e)[0] == Yield(f)[0] && |Yield(e)| == |Yield(f)|;
    match e {
      case Not(x) =>
        assert f.Not? && Yield(e)[1..] == Yield(x) && Yield(f)[1..] == Yield(f.e);
        UnaryInjective(x, f.e);
      case Paren(x) =>
        assert f.Paren?;
        var n := |Yield(e)| - 1;
        assert Yield(e)[1..n] == Yield(x) && Yield(f)[1..n] == Yield(f.e);
        OrInjective(x, f.e);
      case Bare(x) => assert f.Bare?;
      case Cmp(a, op, b) =>
        assert f.Cmp?;
        assert Yield(e)[1] == Yield(f)[1] && Yield(e)[2] == Yield(f)[2];
    }
  }

  lemma JoinTops(l: Expr, t: Token, r: Expr)
    requires IsOr(l) && IsOr(r) && Delta(t) == 0
    ensures TopAt(Yield(l) + [t] + Yield(r), |Yield(l)|, t)
  {
    YieldBalanced(l);
    YieldBalanced(r);
    JoinIsTop(Yield(l), t, Yield(r));
  }

  lemma FlatJoint(t: Token)
    requires t == OrT || t == AndT
    ensures Delta(t) == 0
  {
  }

  lemma RightParts(l: Expr, r: Expr, m: Expr, s: Expr, t: Token)
    requires IsOr(l) && IsOr(m) && IsAnd(r) && IsAnd(s)
    requires t == OrT || (t == AndT && IsUnary(r) && IsUnary(s))
    requires Yield(l) + [t] + Yield(r) == Yield(m) + [t] + Yield(s)
    ensures Yield(l) == Yield(m) && Yield(r) == Yield(s)
  {
    hide Balanced, TopAt, Yield, IsAnd, IsOr, IsUnary, Delta;
    Nest(r);
    Nest(s);
    YieldBalanced(l);
    YieldBalanced(r);
    YieldBalanced(m);
    YieldBalanced(s);
    assert Delta(t) == 0 by { FlatJoint(t); }
    forall i: nat ensures !TopAt(Yield(r), i, t) && !TopAt(Yield(s), i, t) {
      NoTop(r, i);
      NoTop(s, i);
    }
    SameJoin(Yield(l), Yield(r), Yield(m), Yield(s), t);
  }

  /** The tokens determine the tree: precedence, associativity and parentheses leave no choice. */
  lemma YieldInjective(e: Expr, f: Expr)
    requires IsOr(e) && IsOr(f)
    ensures Yield(e) == Yield(f) <==> e == f
  {
    if Yield(e) == Yield(f) { OrInjective(e, f); }
  }

  /** Printing loses nothing: the text of a tree gives back the tree itself. */
  lemma PrintInjective(e: Expr, f: Expr)
    requires IsOr(e) && (forall t :: t in Yield(e) ==> T.Spellable(t))
    requires IsOr(f) && (forall t :: t in Yield(f) ==> T.Spellable(t))
    ensures T.Print(Yield(e)) == T.Print(Yield(f)) <==> e == f
  {
    if T.Print(Yield(e)) == T.Print(Yield(f)) {
      T.PrintRoundTrip(Yield(e));
      T.PrintRoundTrip(Yield(f));
      assert (Yield(e) + [Eof])[..|Yield(e)|] == (Yield(f) + [Eof])[..|Yield(f)|];
      YieldInjective(e, f);
    }
  }
}
