/** Evaluating condition texts, and choosing the branch of a route or gate node. */
module Conditions {
  import opened Common
  import opened StateMachine
  import B = Branching
  import T = Tokenizer

  /** The recursive-descent parser: one position that only moves forward, evaluating as it goes. */
  class Parser {
    const tokens: seq<B.Token>
    const env: B.Env
    const nu: B.Numerics
    var pos: nat

    constructor (tokens: seq<B.Token>, env: B.Env, nu: B.Numerics)
      requires B.Closed(tokens)
      ensures this.tokens == tokens && this.env == env && this.nu == nu && pos == 0
    {
      this.tokens, this.env, this.nu, this.pos := tokens, env, nu, 0;
    }

    ghost predicate Valid()
      reads this
    {
      B.Closed(tokens) && pos < |tokens|
    }

    /** The routine returned `r` and stopped where the specification says. */
    ghost predicate Delivers(spec: B.Parsed, r: Option<bool>)
      reads this
    {
      && pos <= |tokens|
      && match spec
         case Fail => r == None
         case Got(v, p) => r == Some(v) && pos == p
    }

    method Parse() returns (r: Option<bool>)
      requires Valid() && pos == 0
      modifies this`pos
      ensures r == B.Parse(tokens, env, nu)
    {
      r := ParseOr();
      if r.Some? && tokens[pos] != B.Eof {
        r := None;
      }
    }

    method ParseOr() returns (r: Option<bool>)
      requires Valid()
      modifies this`pos
      ensures Delivers(B.ParseOr(tokens, env, nu, old(pos)), r)
      decreases |tokens| - pos, 3
    {
      ghost var whole := B.ParseOr(tokens, env, nu, pos);
      r := ParseAnd();
      if r.None? { return; }
      var left := r.value;
      while tokens[pos] == B.OrT
        invariant old(pos) < pos < |tokens|
        invariant B.OrRest(tokens, env, nu, left, pos) == whole
        decreases |tokens| - pos
      {
        pos := pos + 1;
        r := ParseAnd();
        if r.None? { return; }
        left := left || r.value;
      }
      r := Some(left);
    }

    method ParseAnd() returns (r: Option<bool>)
      requires Valid()
      modifies this`pos
      ensures Delivers(B.ParseAnd(tokens, env, nu, old(pos)), r)
      decreases |tokens| - pos, 2
    {
      ghost var whole := B.ParseAnd(tokens, env, nu, pos);
      r := ParseUnary();
      if r.None? { return; }
      var left := r.value;
      while tokens[pos] == B.AndT
        invariant old(pos) < pos < |tokens|
        invariant B.AndRest(tokens, env, nu, left, pos) == whole
        decreases |tokens| - pos
      {
        pos := pos + 1;
        r := ParseUnary();
        if r.None? { return; }
        left := left && r.value;
      }
      r := Some(left);
    }

    method ParseUnary() returns (r: Option<bool>)
      requires Valid()
      modifies this`pos
      ensures Delivers(B.ParseUnary(tokens, env, nu, old(pos)), r)
      decreases |tokens| - pos, 1
    {
      if tokens[pos] == B.NotT {
        pos := pos + 1;
        r := ParseUnary();
        if r.Some? { r := Some(!r.value); }
      } else {
        r := ParsePrimary();
      }
    }

    method ParsePrimary() returns (r: Option<bool>)
      requires Valid()
      modifies this`pos
      ensures Delivers(B.ParsePrimary(tokens, env, nu, old(pos)), r)
      decreases |tokens| - pos, 0
    {
      var tok := tokens[pos];
      if tok == B.LPar {
        pos := pos + 1;
        r := ParseOr();
        if r.None? { return; }
        if tokens[pos] != B.RPar { return None; }
        pos := pos + 1;
      } else if B.IsOperand(tok) {
        pos := pos + 1;
        var left := B.OperandValue(tok, env, nu);
        if left.None? { return None; }
        if !tokens[pos].OpT? { return Some(B.Truthy(left.value)); }
        var op := tokens[pos].op;
        var rightTok := tokens[pos + 1];
        pos := pos + 2;
        if !B.IsOperand(rightTok) { return None; }
        var right := B.OperandValue(rightTok, env, nu);
        if right.None? { return None; }
        r := Some(B.Compare(left.value, op, right.value, nu));
      } else {
        r := None;
      }
    }
  }

  /** None stands for a condition error. A blank condition holds. */
  function Evaluate(expr: string, env: B.Env, nu: B.Numerics): Option<bool> {
    if expr == "" || B.Strip(expr) == "" then Some(true)
    else
      match T.TokenizeFrom(expr, 0)
      case None => None
      case Some(ts) => B.Parse(ts, env, nu)
  }

  method EvaluateCondition(expr: string, env: B.Env, nu: B.Numerics) returns (r: Option<bool>)
    ensures r == Evaluate(expr, env, nu)
  {
    if expr == "" || B.Strip(expr) == "" { return Some(true); }
    var ts := T.Tokenize(expr);
    if ts.None? { return None; }
    var parser := new Parser(ts.value, env, nu);
    r := parser.Parse();
  }

  /** A non-blank condition has a value exactly when its tokens derive from the grammar with every name bound. */
  lemma EvaluateIffDerivable(expr: string, env: B.Env, nu: B.Numerics, v: bool)
    requires B.Strip(expr) != ""
    ensures Evaluate(expr, env, nu) == Some(v) <==>
            exists e :: T.TokenizeFrom(expr, 0) == Some(B.Yield(e) + [B.Eof]) && B.IsOr(e)
                        && B.Known(e, env) && B.Eval(e, env, nu) == v
  {
    var ts := T.TokenizeFrom(expr, 0);
    if ts.Some? {
      B.ParseIffDerivable(ts.value, env, nu, v);
      forall e | ts == Some(B.Yield(e) + [B.Eof]) && B.IsOr(e)
        ensures B.IsDerivation(ts.value, e)
      {}
      if Evaluate(expr, env, nu) == Some(v) {
        var e :| B.IsDerivation(ts.value, e) && B.Known(e, env) && B.Eval(e, env, nu) == v;
        assert ts == Some(B.Yield(e) + [B.Eof]);
      }
    }
  }

  /** Writing an expression down and evaluating the text gives its meaning, or an error if a name is unbound. */
  lemma EvaluatePrinted(e: B.Expr, env: B.Env, nu: B.Numerics)
    requires B.IsOr(e) && forall t :: t in B.Yield(e) ==> T.Spellable(t)
    ensures Evaluate(T.Print(B.Yield(e)), env, nu) ==
            if B.Known(e, env) then Some(B.Eval(e, env, nu)) else None
  {
    var ts := B.Yield(e);
    var text := T.Print(ts);
    T.PrintRoundTrip(ts);
    B.ParseDerivation(ts + [B.Eof], env, nu, e);
    T.SpellStart(ts[0]);
    assert text[0] == T.Spell(ts[0])[0];
    StripKeeps(text);
  }

  lemma StripKeeps(s: string)
    requires s != "" && !B.IsSpace(s[0])
    ensures B.Strip(s) != ""
  {
    StripRightKeeps(s);
  }

  lemma {:induction false} StripRightKeeps(s: string)
    requires s != "" && !B.IsSpace(s[0])
    ensures B.StripRight(s) != ""
    decreases |s|
  {
    if B.IsSpace(s[|s| - 1]) { StripRightKeeps(s[..|s| - 1]); }
  }

  // ---- branch choice ----------------------------------------------------

  datatype Choice = BadCondition | NoBranch | Goto(target: NodeId)

  function ResolveBranch(branches: seq<Branch>, env: B.Env, nu: B.Numerics): Choice {
    if branches == [] then NoBranch
    else
      match Evaluate(branches[0].when, env, nu)
      case None => BadCondition
      case Some(true) => Goto(branches[0].goto)
      case Some(false) => ResolveBranch(branches[1..], env, nu)
  }

  method ChooseBranch(branches: seq<Branch>, env: B.Env, nu: B.Numerics) returns (r: Choice)
    ensures r == ResolveBranch(branches, env, nu)
  {
    for i := 0 to |branches|
      invariant ResolveBranch(branches, env, nu) == ResolveBranch(branches[i..], env, nu)
    {
      var v := EvaluateCondition(branches[i].when, env, nu);
      if v.None? { return BadCondition; }
      if v.value { return Goto(branches[i].goto); }
      assert branches[i..][1..] == branches[i + 1..];
    }
    r := NoBranch;
  }

  /** Branch `i` is the first whose condition does not come out false. */
  ghost predicate Decides(branches: seq<Branch>, env: B.Env, nu: B.Numerics, i: nat) {
    && i < |branches|
    && Evaluate(branches[i].when, env, nu) != Some(false)
    && forall j :: 0 <= j < i ==> Evaluate(branches[j].when, env, nu) == Some(false)
  }

  /** The first branch that is not false decides: its target if it holds, an error if it has no value. */
  lemma {:induction false} FirstBranchDecides(branches: seq<Branch>, env: B.Env, nu: B.Numerics, i: nat)
    requires Decides(branches, env, nu, i)
    ensures ResolveBranch(branches, env, nu) ==
            if Evaluate(branches[i].when, env, nu) == Some(true) then Goto(branches[i].goto) else BadCondition
    decreases i
  {
    if i > 0 {
      assert Decides(branches[1..], env, nu, i - 1) by {
        forall j | 0 <= j < i - 1
          ensures Evaluate(branches[1..][j].when, env, nu) == Some(false)
        { assert branches[1..][j] == branches[j + 1]; }
      }
      FirstBranchDecides(branches[1..], env, nu, i - 1);
    }
  }

  lemma {:induction false} GotoIsBranch(branches: seq<Branch>, env: B.Env, nu: B.Numerics)
    ensures var c := ResolveBranch(branches, env, nu);
            c.Goto? ==> exists b :: b in branches && b.goto == c.target
  {
    if branches != [] {
      GotoIsBranch(branches[1..], env, nu);
      assert branches[0] in branches;
      forall b | b in branches[1..] ensures b in branches {}
    }
  }
}
