/**
 The condition language of route and gate nodes: the operand semantics, the
 recursive-descent parser that evaluates while it parses, and the reference
 semantics over syntax trees that it is proved against.
 */
module Branching {
  import opened Common

  datatype Value = Str(s: string) | Num(n: real) | Flag(b: bool)

  type Env = map<string, Value>

  datatype Op = Eq | Ne | In | Contains

  datatype Token =
    | LPar | RPar | NotT | AndT | OrT | Eof
    | OpT(op: Op)
    | NumberT(lexeme: string)
    | TextT(s: string)
    | IdentT(name: string)

  /** How number literals are read and numbers are printed; foreign to the evaluator. */
  datatype Numerics = Numerics(read: string -> real, show: real -> string)

  // ---- operand semantics ------------------------------------------------

  predicate IsOperand(t: Token) {
    t.NumberT? || t.TextT? || t.IdentT?
  }

  function OperandValue(t: Token, env: Env, nu: Numerics): Option<Value>
    requires IsOperand(t)
  {
    match t
    case NumberT(x) => Some(Num(nu.read(x)))
    case TextT(s) => Some(Str(s))
    case IdentT(x) => if x in env then Some(env[x]) else None
  }

  function ToText(v: Value, nu: Numerics): string {
    match v
    case Str(s) => s
    case Num(n) => nu.show(n)
    case Flag(b) => if b then "True" else "False"
  }

  predicate Substring(needle: string, hay: string) {
    exists i :: 0 <= i <= |hay| && needle <= hay[i..]
  }

  predicate SameValue(l: Value, r: Value, nu: Numerics) {
    if l.Num? && r.Num? then l.n == r.n else ToText(l, nu) == ToText(r, nu)
  }

  predicate Compare(l: Value, op: Op, r: Value, nu: Numerics) {
    match op
    case In => Substring(ToText(l, nu), ToText(r, nu))
    case Contains => Substring(ToText(r, nu), ToText(l, nu))
    case Eq => SameValue(l, r, nu)
    case Ne => !SameValue(l, r, nu)
  }

  predicate IsSpace(c: char) {
    c in " \t\n\r" || c == '\U{0B}' || c == '\U{0C}'
  }

  function LowerChar(c: char): char {
    if 'A' <= c <= 'Z' then c - 'A' + 'a' else c
  }

  function Lower(s: string): (r: string)
    ensures |r| == |s|
    ensures forall i :: 0 <= i < |s| ==> r[i] == LowerChar(s[i])
  {
    seq(|s|, i requires 0 <= i < |s| => LowerChar(s[i]))
  }

  function StripLeft(s: string): string {
    if s != [] && IsSpace(s[0]) then StripLeft(s[1..]) else s
  }

  function StripRight(s: string): string {
    if s != [] && IsSpace(s[|s| - 1]) then StripRight(s[..|s| - 1]) else s
  }

  function Strip(s: string): string {
    StripRight(StripLeft(s))
  }

  /** Truthiness that honours the string literals `true` and `false`. */
  predicate Truthy(v: Value) {
    match v
    case Str(s) =>
      var low := Lower(Strip(s));
      if low == "false" then false
      else if low == "true" then true
      else s != []
    case Num(n) => n != 0.0
    case Flag(b) => b
  }

  // ---- reference semantics ----------------------------------------------

  /** Syntax trees. Parentheses are kept, so a tree determines its token sequence. */
  datatype Expr =
    | Or(l: Expr, r: Expr)
    | And(l: Expr, r: Expr)
    | Not(e: Expr)
    | Paren(e: Expr)
    | Bare(x: Token)
    | Cmp(a: Token, op: Op, b: Token)

  /** Grammar levels: `or` over `and` over `not` over primary, the first two left-associative. */
  predicate IsOr(e: Expr)
    decreases e, 2
  {
    if e.Or? then IsOr(e.l) && IsAnd(e.r) else IsAnd(e)
  }

  predicate IsAnd(e: Expr)
    decreases e, 1
  {
    if e.And? then IsAnd(e.l) && IsUnary(e.r) else IsUnary(e)
  }

  predicate IsUnary(e: Expr)
    decreases e, 0
  {
    match e
    case Not(x) => IsUnary(x)
    case Paren(x) => IsOr(x)
    case Bare(x) => IsOperand(x)
    case Cmp(a, _, b) => IsOperand(a) && IsOperand(b)
    case _ => false
  }

  /** The tokens a tree stands for. */
  function Yield(e: Expr): (ts: seq<Token>)
    ensures |ts| > 0
  {
    match e
    case Or(l, r) => Yield(l) + [OrT] + Yield(r)
    case And(l, r) => Yield(l) + [AndT] + Yield(r)
    case Not(x) => [NotT] + Yield(x)
    case Paren(x) => [LPar] + Yield(x) + [RPar]
    case Bare(x) => [x]
    case Cmp(a, op, b) => [a, OpT(op), b]
  }

  predicate KnownOperand(t: Token, env: Env) {
    t.IdentT? ==> t.name in env
  }

  /** Every identifier of the tree is bound, also in branches whose value does not matter. */
  predicate Known(e: Expr, env: Env) {
    match e
    case Or(l, r) => Known(l, env) && Known(r, env)
    case And(l, r) => Known(l, env) && Known(r, env)
    case Not(x) => Known(x, env)
    case Paren(x) => Known(x, env)
    case Bare(x) => KnownOperand(x, env)
    case Cmp(a, _, b) => KnownOperand(a, env) && KnownOperand(b, env)
  }

  function ValueOf(t: Token, env: Env, nu: Numerics): Value {
    if IsOperand(t) && OperandValue(t, env, nu).Some? then OperandValue(t, env, nu).value else Flag(false)
  }

  /** The meaning of a tree. */
  predicate Eval(e: Expr, env: Env, nu: Numerics) {
    match e
    case Or(l, r) => Eval(l, env, nu) || Eval(r, env, nu)
    case And(l, r) => Eval(l, env, nu) && Eval(r, env, nu)
    case Not(x) => !Eval(x, env, nu)
    case Paren(x) => Eval(x, env, nu)
    case Bare(x) => Truthy(ValueOf(x, env, nu))
    case Cmp(a, op, b) => Compare(ValueOf(a, env, nu), op, ValueOf(b, env, nu), nu)
  }

  // ---- the parser as a function -----------------------------------------

  /** A token list as the tokenizer leaves it: closed by its only end marker. */
  predicate Closed(ts: seq<Token>) {
    |ts| > 0 && ts[|ts| - 1] == Eof && forall i :: 0 <= i < |ts| - 1 ==> ts[i] != Eof
  }

  /** The outcome of a parsing routine: an error, or a value and the next position. */
  datatype Parsed = Fail | Got(value: bool, pos: nat)

  ghost predicate Progress(ts: seq<Token>, pos: nat, r: Parsed) {
    r.Got? ==> pos < r.pos < |ts|
  }

  function ParseOr(ts: seq<Token>, env: Env, nu: Numerics, pos: nat): (r: Parsed)
    requires Closed(ts) && pos < |ts|
    ensures Progress(ts, pos, r)
    decreases |ts| - pos, 4
  {
    match ParseAnd(ts, env, nu, pos)
    case Fail => Fail
    case Got(v, p) => OrRest(ts, env, nu, v, p)
  }

  function OrRest(ts: seq<Token>, env: Env, nu: Numerics, left: bool, pos: nat): (r: Parsed)
    requires Closed(ts) && pos < |ts|
    ensures r.Got? ==> pos <= r.pos < |ts|
    decreases |ts| - pos, 0
  {
    if ts[pos] != OrT then Got(left, pos)
    else
      match ParseAnd(ts, env, nu, pos + 1)
      case Fail => Fail
      case Got(v, p) => OrRest(ts, env, nu, left || v, p)
  }

  function ParseAnd(ts: seq<Token>, env: Env, nu: Numerics, pos: nat): (r: Parsed)
    requires Closed(ts) && pos < |ts|
    ensures Progress(ts, pos, r)
    decreases |ts| - pos, 3
  {
    match ParseUnary(ts, env, nu, pos)
    case Fail => Fail
    case Got(v, p) => AndRest(ts, env, nu, v, p)
  }

  function AndRest(ts: seq<Token>, env: Env, nu: Numerics, left: bool, pos: nat): (r: Parsed)
    requires Closed(ts) && pos < |ts|
    ensures r.Got? ==> pos <= r.pos < |ts|
    decreases |ts| - pos, 0
  {
    if ts[pos] != AndT then Got(left, pos)
    else
      match ParseUnary(ts, env, nu, pos + 1)
      case Fail => Fail
      case Got(v, p) => AndRest(ts, env, nu, left && v, p)
  }

  function ParseUnary(ts: seq<Token>, env: Env, nu: Numerics, pos: nat): (r: Parsed)
    requires Closed(ts) && pos < |ts|
    ensures Progress(ts, pos, r)
    decreases |ts| - pos, 2
  {
    if ts[pos] == NotT then
      match ParseUnary(ts, env, nu, pos + 1)
      case Fail => Fail
      case Got(v, p) => Got(!v, p)
    else ParsePrimary(ts, env, nu, pos)
  }

  function ParsePrimary(ts: seq<Token>, env: Env, nu: Numerics, pos: nat): (r: Parsed)
    requires Closed(ts) && pos < |ts|
    ensures Progress(ts, pos, r)
    decreases |ts| - pos, 1
  {
    if ts[pos] == LPar then
      match ParseOr(ts, env, nu, pos + 1)
      case Fail => Fail
      case Got(v, p) => if ts[p] == RPar then Got(v, p + 1) else Fail
    else if IsOperand(ts[pos]) then
      match OperandValue(ts[pos], env, nu)
      case None => Fail
      case Some(left) =>
        if !ts[pos + 1].OpT? then Got(Truthy(left), pos + 1)
        else if !IsOperand(ts[pos + 2]) then Fail
        else
          match OperandValue(ts[pos + 2], env, nu)
          case None => Fail
          case Some(right) => Got(Compare(left, ts[pos + 1].op, right, nu), pos + 3)
    else Fail
  }

  /** The whole token list: an `or` expression followed by the end marker. */
  function Parse(ts: seq<Token>, env: Env, nu: Numerics): Option<bool>
    requires Closed(ts)
  {
    match ParseOr(ts, env, nu, 0)
    case Fail => None
    case Got(v, p) => if ts[p] == Eof then Some(v) else None
  }

  // ---- completeness: every derivation is accepted with its meaning ------

  /** How many tokens a tree stands for. */
  function Width(e: Expr): (w: nat)
    ensures w > 0
  {
    match e
    case Or(l, r) => Width(l) + 1 + Width(r)
    case And(l, r) => Width(l) + 1 + Width(r)
    case Not(x) => 1 + Width(x)
    case Paren(x) => 1 + Width(x) + 1
    case Bare(_) => 1
    case Cmp(_, _, _) => 3
  }

  /** The tokens of `e` stand in `ts` from `pos` on; the same as comparing with `Yield`, position by position. */
  ghost predicate Spans(ts: seq<Token>, pos: nat, e: Expr)
    decreases e
  {
    && pos + Width(e) < |ts|
    && match e
       case Or(l, r) =>
         Spans(ts, pos, l) && ts[pos + Width(l)] == OrT && Spans(ts, pos + Width(l) + 1, r)
       case And(l, r) =>
         Spans(ts, pos, l) && ts[pos + Width(l)] == AndT && Spans(ts, pos + Width(l) + 1, r)
       case Not(x) => ts[pos] == NotT && Spans(ts, pos + 1, x)
       case Paren(x) => ts[pos] == LPar && Spans(ts, pos + 1, x) && ts[pos + 1 + Width(x)] == RPar
       case Bare(x) => ts[pos] == x
       case Cmp(a, op, b) => ts[pos] == a && ts[pos + 1] == OpT(op) && ts[pos + 2] == b
  }

  lemma {:induction false} WidthIsYield(e: Expr)
    ensures |Yield(e)| == Width(e)
  {
    match e {
      case Or(l, r) => WidthIsYield(l); WidthIsYield(r);
      case And(l, r) => WidthIsYield(l); WidthIsYield(r);
      case Not(x) => WidthIsYield(x);
      case Paren(x) => WidthIsYield(x);
      case _ =>
    }
  }

  /** `part` stands in `ts` at `pos`, and is not the last thing there. */
  ghost predicate At(ts: seq<Token>, pos: nat, part: seq<Token>) {
    pos + |part| < |ts| && ts[pos..pos + |part|] == part
  }

  lemma AtAppend(ts: seq<Token>, pos: nat, a: seq<Token>, b: seq<Token>)
    ensures At(ts, pos, a + b) <==> At(ts, pos, a) && At(ts, pos + |a|, b)
  {
    if pos + |a + b| < |ts| {
      var s := ts[pos..pos + |a + b|];
      assert ts[pos..pos + |a|] == s[..|a|];
      assert ts[pos + |a|..pos + |a| + |b|] == s[|a|..];
      assert s == s[..|a|] + s[|a|..];
      if s == a + b { assert s[..|a|] == a && s[|a|..] == b; }
    }
  }

  lemma AtToken(ts: seq<Token>, pos: nat, t: Token)
    ensures At(ts, pos, [t]) <==> pos + 1 < |ts| && ts[pos] == t
  {
    if pos + 1 < |ts| { assert ts[pos..pos + 1] == [ts[pos]]; }
  }

  /** Left operand, separator, right operand: where each stands. */
  lemma AtBinary(ts: seq<Token>, pos: nat, a: seq<Token>, t: Token, b: seq<Token>)
    ensures At(ts, pos, a + [t] + b) <==>
            At(ts, pos, a) && pos + |a| + 1 < |ts| && ts[pos + |a|] == t && At(ts, pos + |a| + 1, b)
  {
    AtAppend(ts, pos, a + [t], b);
    AtAppend(ts, pos, a, [t]);
    AtToken(ts, pos + |a|, t);
  }

  lemma SpansFits(ts: seq<Token>, pos: nat, e: Expr)
    ensures Spans(ts, pos, e) ==> pos + Width(e) < |ts|
  {
  }

  lemma WidthOf(l: Expr, r: Expr)
    ensures Width(Or(l, r)) == Width(l) + 1 + Width(r) && Width(And(l, r)) == Width(l) + 1 + Width(r)
    ensures Width(Not(l)) == 1 + Width(l) && Width(Paren(l)) == Width(l) + 2
  {
  }

  lemma OrShape(ts: seq<Token>, pos: nat, l: Expr, r: Expr)
    ensures Width(Or(l, r)) == Width(l) + 1 + Width(r)
    ensures Spans(ts, pos, Or(l, r)) <==>
            && pos + Width(l) + 1 + Width(r) < |ts| && Spans(ts, pos, l)
            && ts[pos + Width(l)] == OrT && Spans(ts, pos + Width(l) + 1, r)
  {
    hide Width;
    WidthOf(l, r);
  }

  lemma AndShape(ts: seq<Token>, pos: nat, l: Expr, r: Expr)
    ensures Width(And(l, r)) == Width(l) + 1 + Width(r)
    ensures Spans(ts, pos, And(l, r)) <==>
            && pos + Width(l) + 1 + Width(r) < |ts| && Spans(ts, pos, l)
            && ts[pos + Width(l)] == AndT && Spans(ts, pos + Width(l) + 1, r)
  {
    hide Width;
    WidthOf(l, r);
  }

  lemma NotShape(ts: seq<Token>, pos: nat, x: Expr)
    ensures Width(Not(x)) == 1 + Width(x)
    ensures Spans(ts, pos, Not(x)) <==> pos + 1 + Width(x) < |ts| && ts[pos] == NotT && Spans(ts, pos + 1, x)
  {
    hide Width;
    WidthOf(x, x);
  }

  lemma ParenShape(ts: seq<Token>, pos: nat, x: Expr)
    ensures Width(Paren(x)) == Width(x) + 2
    ensures Spans(ts, pos, Paren(x)) <==>
            pos + Width(x) + 2 < |ts| && ts[pos] == LPar && Spans(ts, pos + 1, x) && ts[pos + 1 + Width(x)] == RPar
  {
    hide Width;
    WidthOf(x, x);
  }

  lemma {:induction false} SpansIsYield(ts: seq<Token>, pos: nat, e: Expr)
    ensures Spans(ts, pos, e) <==> At(ts, pos, Yield(e))
    decreases e
  {
    match e {
      case Or(l, r) =>
        SpansIsYield(ts, pos, l);
        SpansIsYield(ts, pos + Width(l) + 1, r);
        OrYield(ts, pos, l, r);
      case And(l, r) =>
        SpansIsYield(ts, pos, l);
        SpansIsYield(ts, pos + Width(l) + 1, r);
        AndYield(ts, pos, l, r);
      case Not(x) =>
        SpansIsYield(ts, pos + 1, x);
        NotYield(ts, pos, x);
      case Paren(x) =>
        SpansIsYield(ts, pos + 1, x);
        ParenYield(ts, pos, x);
      case _ =>
        OperandYield(ts, pos, e);
    }
  }

  lemma BinaryYield(ts: seq<Token>, pos: nat, l: Expr, t: Token, r: Expr)
    requires Spans(ts, pos, l) <==> At(ts, pos, Yield(l))
    requires Spans(ts, pos + Width(l) + 1, r) <==> At(ts, pos + Width(l) + 1, Yield(r))
    ensures At(ts, pos, Yield(l) + [t] + Yield(r)) <==>
            Spans(ts, pos, l) && pos + Width(l) + 1 < |ts| && ts[pos + Width(l)] == t
            && Spans(ts, pos + Width(l) + 1, r)
  {
    WidthIsYield(l);
    AtBinary(ts, pos, Yield(l), t, Yield(r));
  }

  lemma OrYield(ts: seq<Token>, pos: nat, l: Expr, r: Expr)
    requires Spans(ts, pos, l) <==> At(ts, pos, Yield(l))
    requires Spans(ts, pos + Width(l) + 1, r) <==> At(ts, pos + Width(l) + 1, Yield(r))
    ensures Spans(ts, pos, Or(l, r)) <==> At(ts, pos, Yield(Or(l, r)))
  {
    hide At, Spans, Width;
    OrShape(ts, pos, l, r);
    BinaryYield(ts, pos, l, OrT, r);
    SpansFits(ts, pos + Width(l) + 1, r);
  }

  lemma AndYield(ts: seq<Token>, pos: nat, l: Expr, r: Expr)
    requires Spans(ts, pos, l) <==> At(ts, pos, Yield(l))
    requires Spans(ts, pos + Width(l) + 1, r) <==> At(ts, pos + Width(l) + 1, Yield(r))
    ensures Spans(ts, pos, And(l, r)) <==> At(ts, pos, Yield(And(l, r)))
  {
    hide At, Spans, Width;
    AndShape(ts, pos, l, r);
    BinaryYield(ts, pos, l, AndT, r);
    SpansFits(ts, pos + Width(l) + 1, r);
  }

  lemma NotYield(ts: seq<Token>, pos: nat, x: Expr)
    requires Spans(ts, pos + 1, x) <==> At(ts, pos + 1, Yield(x))
    ensures Spans(ts, pos, Not(x)) <==> At(ts, pos, Yield(Not(x)))
  {
    hide At, Spans, Width;
    NotShape(ts, pos, x);
    SpansFits(ts, pos + 1, x);
    AtAppend(ts, pos, [NotT], Yield(x));
    AtToken(ts, pos, NotT);
  }

  lemma ParenYield(ts: seq<Token>, pos: nat, x: Expr)
    requires Spans(ts, pos + 1, x) <==> At(ts, pos + 1, Yield(x))
    ensures Spans(ts, pos, Paren(x)) <==> At(ts, pos, Yield(Paren(x)))
  {
    hide At, Spans, Width;
    ParenShape(ts, pos, x);
    WidthIsYield(x);
    AtAppend(ts, pos, [LPar] + Yield(x), [RPar]);
    AtAppend(ts, pos, [LPar], Yield(x));
    AtToken(ts, pos, LPar);
    AtToken(ts, pos + 1 + Width(x), RPar);
  }

  lemma OperandYield(ts: seq<Token>, pos: nat, e: Expr)
    requires e.Bare? || e.Cmp?
    ensures Spans(ts, pos, e) <==> At(ts, pos, Yield(e))
  {
    match e {
      case Bare(x) =>
        AtToken(ts, pos, x);
      case Cmp(a, op, b) =>
        assert Yield(e) == [a] + [OpT(op)] + [b];
        AtBinary(ts, pos, [a], OpT(op), [b]);
        AtToken(ts, pos, a);
        AtToken(ts, pos + 2, b);
    }
  }

  /**
   What each routine makes of a stretch from `pos` to `end` that is bound (`known`)
   and means `v`: the two chain levels go on behind the stretch with its value.
   */
  ghost predicate UnaryIs(ts: seq<Token>, env: Env, nu: Numerics, pos: nat, end: nat, known: bool, v: bool)
    requires Closed(ts) && pos < end < |ts|
  {
    ParseUnary(ts, env, nu, pos) == if known then Got(v, end) else Fail
  }

  ghost predicate AndIs(ts: seq<Token>, env: Env, nu: Numerics, pos: nat, end: nat, known: bool, v: bool)
    requires Closed(ts) && pos < end < |ts|
  {
    ParseAnd(ts, env, nu, pos) == if known then AndRest(ts, env, nu, v, end) else Fail
  }

  ghost predicate OrIs(ts: seq<Token>, env: Env, nu: Numerics, pos: nat, end: nat, known: bool, v: bool)
    requires Closed(ts) && pos < end < |ts|
  {
    ParseOr(ts, env, nu, pos) == if known then OrRest(ts, env, nu, v, end) else Fail
  }

  lemma {:induction false} UnaryComplete(ts: seq<Token>, env: Env, nu: Numerics, pos: nat, e: Expr)
    requires Closed(ts) && IsUnary(e) && Spans(ts, pos, e)
    requires !ts[pos + Width(e)].OpT?
    ensures UnaryIs(ts, env, nu, pos, pos + Width(e), Known(e, env), Eval(e, env, nu))
    decreases e, 0
  {
    hide UnaryIs, OrIs, Eval, Known, Closed, Spans, Width, OperandValue, ValueOf, Compare, Truthy, KnownOperand;
    match e {
      case Not(x) =>
        NotShape(ts, pos, x);
        UnaryComplete(ts, env, nu, pos + 1, x);
        NotComplete(ts, env, nu, pos, x);
      case Paren(x) =>
        ParenShape(ts, pos, x);
        OrComplete(ts, env, nu, pos + 1, x);
        ParenComplete(ts, env, nu, pos, x);
      case _ =>
        OperandComplete(ts, env, nu, pos, e);
    }
  }

  lemma NotComplete(ts: seq<Token>, env: Env, nu: Numerics, pos: nat, x: Expr)
    requires Closed(ts) && Spans(ts, pos, Not(x))
    requires UnaryIs(ts, env, nu, pos + 1, pos + 1 + Width(x), Known(x, env), Eval(x, env, nu))
    ensures UnaryIs(ts, env, nu, pos, pos + Width(Not(x)), Known(Not(x), env), Eval(Not(x), env, nu))
  {
    hide UnaryIs, Spans, Closed, Width;
    NotShape(ts, pos, x);
    NotJoin(ts, env, nu, pos, pos + 1 + Width(x), Known(x, env), Eval(x, env, nu));
  }

  lemma ParenComplete(ts: seq<Token>, env: Env, nu: Numerics, pos: nat, x: Expr)
    requires Closed(ts) && Spans(ts, pos, Paren(x))
    requires OrIs(ts, env, nu, pos + 1, pos + 1 + Width(x), Known(x, env), Eval(x, env, nu))
    ensures UnaryIs(ts, env, nu, pos, pos + Width(Paren(x)), Known(Paren(x), env), Eval(Paren(x), env, nu))
  {
    hide UnaryIs, OrIs, Spans, Closed, Width;
    ParenShape(ts, pos, x);
    ParenJoin(ts, env, nu, pos, pos + 1 + Width(x), Known(x, env), Eval(x, env, nu));
  }

  lemma OperandComplete(ts: seq<Token>, env: Env, nu: Numerics, pos: nat, e: Expr)
    requires Closed(ts) && IsUnary(e) && (e.Bare? || e.Cmp?) && Spans(ts, pos, e)
    requires !ts[pos + Width(e)].OpT?
    ensures UnaryIs(ts, env, nu, pos, pos + Width(e), Known(e, env), Eval(e, env, nu))
  {
  }

  lemma NotJoin(ts: seq<Token>, env: Env, nu: Numerics, pos: nat, end: nat, known: bool, v: bool)
    requires Closed(ts) && pos + 1 < end < |ts| && ts[pos] == NotT
    requires UnaryIs(ts, env, nu, pos + 1, end, known, v)
    ensures UnaryIs(ts, env, nu, pos, end, known, !v)
  {
  }

  lemma ParenJoin(ts: seq<Token>, env: Env, nu: Numerics, pos: nat, end: nat, known: bool, v: bool)
    requires Closed(ts) && pos + 1 < end && end + 1 < |ts| && ts[pos] == LPar && ts[end] == RPar
    requires OrIs(ts, env, nu, pos + 1, end, known, v)
    ensures UnaryIs(ts, env, nu, pos, end + 1, known, v)
  {
  }

  lemma {:induction false} AndComplete(ts: seq<Token>, env: Env, nu: Numerics, pos: nat, e: Expr)
    requires Closed(ts) && IsAnd(e) && Spans(ts, pos, e)
    requires !ts[pos + Width(e)].OpT?
    ensures AndIs(ts, env, nu, pos, pos + Width(e), Known(e, env), Eval(e, env, nu))
    decreases e, 1
  {
    hide UnaryIs, AndIs, OperandValue, ValueOf, Compare, Truthy, Spans, Width;
    if e.And? {
      AndShape(ts, pos, e.l, e.r);
      var mid := pos + Width(e.l);
      AndComplete(ts, env, nu, pos, e.l);
      UnaryComplete(ts, env, nu, mid + 1, e.r);
      AndJoin(ts, env, nu, pos, mid, pos + Width(e),
              Known(e.l, env), Eval(e.l, env, nu), Known(e.r, env), Eval(e.r, env, nu));
    } else {
      SpansFits(ts, pos, e);
      UnaryComplete(ts, env, nu, pos, e);
      AndSingle(ts, env, nu, pos, pos + Width(e), Known(e, env), Eval(e, env, nu));
    }
  }

  lemma AndSingle(ts: seq<Token>, env: Env, nu: Numerics, pos: nat, end: nat, known: bool, v: bool)
    requires Closed(ts) && pos < end < |ts|
    requires UnaryIs(ts, env, nu, pos, end, known, v)
    ensures AndIs(ts, env, nu, pos, end, known, v)
  {
  }

  lemma AndJoin(ts: seq<Token>, env: Env, nu: Numerics, pos: nat, mid: nat, end: nat,
                lKnown: bool, l: bool, rKnown: bool, r: bool)
    requires Closed(ts) && pos < mid && mid + 1 < end < |ts| && ts[mid] == AndT
    requires AndIs(ts, env, nu, pos, mid, lKnown, l)
    requires UnaryIs(ts, env, nu, mid + 1, end, rKnown, r)
    ensures AndIs(ts, env, nu, pos, end, lKnown && rKnown, l && r)
  {
  }

  lemma {:induction false} OrComplete(ts: seq<Token>, env: Env, nu: Numerics, pos: nat, e: Expr)
    requires Closed(ts) && IsOr(e) && Spans(ts, pos, e)
    requires !ts[pos + Width(e)].OpT? && ts[pos + Width(e)] != AndT
    ensures OrIs(ts, env, nu, pos, pos + Width(e), Known(e, env), Eval(e, env, nu))
    decreases e, 2
  {
    hide AndIs, OrIs, OperandValue, ValueOf, Compare, Truthy, Spans, Width;
    if e.Or? {
      OrShape(ts, pos, e.l, e.r);
      var mid := pos + Width(e.l);
      OrComplete(ts, env, nu, pos, e.l);
      AndComplete(ts, env, nu, mid + 1, e.r);
      OrJoin(ts, env, nu, pos, mid, pos + Width(e),
             Known(e.l, env), Eval(e.l, env, nu), Known(e.r, env), Eval(e.r, env, nu));
    } else {
      SpansFits(ts, pos, e);
      AndComplete(ts, env, nu, pos, e);
      OrSingle(ts, env, nu, pos, pos + Width(e), Known(e, env), Eval(e, env, nu));
    }
  }

  lemma OrSingle(ts: seq<Token>, env: Env, nu: Numerics, pos: nat, end: nat, known: bool, v: bool)
    requires Closed(ts) && pos < end < |ts| && ts[end] != AndT
    requires AndIs(ts, env, nu, pos, end, known, v)
    ensures OrIs(ts, env, nu, pos, end, known, v)
  {
  }

  lemma OrJoin(ts: seq<Token>, env: Env, nu: Numerics, pos: nat, mid: nat, end: nat,
               lKnown: bool, l: bool, rKnown: bool, r: bool)
    requires Closed(ts) && pos < mid && mid + 1 < end < |ts| && ts[mid] == OrT && ts[end] != AndT
    requires OrIs(ts, env, nu, pos, mid, lKnown, l)
    requires AndIs(ts, env, nu, mid + 1, end, rKnown, r)
    ensures OrIs(ts, env, nu, pos, end, lKnown && rKnown, l || r)
  {
  }

  // ---- soundness: an accepted prefix has a derivation --------------------

  /** `e` derives exactly the tokens from `pos` to `end`, is bound, and means `v`. */
  ghost predicate Derives(ts: seq<Token>, env: Env, nu: Numerics, pos: nat, end: nat, v: bool, e: Expr) {
    && end == pos + Width(e)
    && Spans(ts, pos, e)
    && Known(e, env)
    && Eval(e, env, nu) == v
  }

  lemma {:induction false} UnarySound(ts: seq<Token>, env: Env, nu: Numerics, pos: nat) returns (e: Expr)
    requires Closed(ts) && pos < |ts| && ParseUnary(ts, env, nu, pos).Got?
    ensures var r := ParseUnary(ts, env, nu, pos);
            IsUnary(e) && Derives(ts, env, nu, pos, r.pos, r.value, e)
    decreases |ts| - pos, 2
  {
    hide Derives, ValueOf, Compare, Truthy, OperandValue;
    if ts[pos] == NotT {
      var x := UnarySound(ts, env, nu, pos + 1);
      NotSound(ts, env, nu, pos, x);
      e := Not(x);
    } else if ts[pos] == LPar {
      ParenGot(ts, env, nu, pos);
      var x := OrSound(ts, env, nu, pos + 1);
      ParenSound(ts, env, nu, pos, x);
      e := Paren(x);
    } else {
      e := OperandSound(ts, env, nu, pos);
    }
  }

  lemma NotSound(ts: seq<Token>, env: Env, nu: Numerics, pos: nat, x: Expr)
    requires Closed(ts) && pos + 1 < |ts| && ts[pos] == NotT && ParseUnary(ts, env, nu, pos + 1).Got?
    requires var r := ParseUnary(ts, env, nu, pos + 1); Derives(ts, env, nu, pos + 1, r.pos, r.value, x)
    ensures var r := ParseUnary(ts, env, nu, pos); r.Got? && Derives(ts, env, nu, pos, r.pos, r.value, Not(x))
  {
    hide ParsePrimary, Spans, Width;
    NotShape(ts, pos, x);
  }

  lemma ParenGot(ts: seq<Token>, env: Env, nu: Numerics, pos: nat)
    requires Closed(ts) && pos < |ts| && ts[pos] == LPar && ParseUnary(ts, env, nu, pos).Got?
    ensures pos + 1 < |ts| && ParseOr(ts, env, nu, pos + 1).Got?
    ensures var r := ParseOr(ts, env, nu, pos + 1);
            ts[r.pos] == RPar && ParseUnary(ts, env, nu, pos) == Got(r.value, r.pos + 1)
  {
    assert ParseUnary(ts, env, nu, pos) == ParsePrimary(ts, env, nu, pos);
    hide ParseOr, ParseUnary;
  }

  lemma ParenSound(ts: seq<Token>, env: Env, nu: Numerics, pos: nat, x: Expr)
    requires Closed(ts) && pos + 1 < |ts| && ts[pos] == LPar && ParseUnary(ts, env, nu, pos).Got?
    requires ParseOr(ts, env, nu, pos + 1).Got?
    requires var r := ParseOr(ts, env, nu, pos + 1); Derives(ts, env, nu, pos + 1, r.pos, r.value, x)
    ensures var r := ParseUnary(ts, env, nu, pos); Derives(ts, env, nu, pos, r.pos, r.value, Paren(x))
  {
    hide ParseOr, ParseUnary, ParsePrimary, Spans, Width;
    ParenGot(ts, env, nu, pos);
    ParenShape(ts, pos, x);
  }

  lemma OperandSound(ts: seq<Token>, env: Env, nu: Numerics, pos: nat) returns (e: Expr)
    requires Closed(ts) && pos < |ts| && ts[pos] != LPar && ParsePrimary(ts, env, nu, pos).Got?
    ensures var r := ParsePrimary(ts, env, nu, pos);
            IsUnary(e) && Derives(ts, env, nu, pos, r.pos, r.value, e)
  {
    if !ts[pos + 1].OpT? {
      e := Bare(ts[pos]);
    } else {
      e := Cmp(ts[pos], ts[pos + 1].op, ts[pos + 2]);
    }
  }

  lemma {:induction false} AndSound(ts: seq<Token>, env: Env, nu: Numerics, pos: nat) returns (e: Expr)
    requires Closed(ts) && pos < |ts| && ParseAnd(ts, env, nu, pos).Got?
    ensures var r := ParseAnd(ts, env, nu, pos);
            IsAnd(e) && Derives(ts, env, nu, pos, r.pos, r.value, e)
    decreases |ts| - pos, 3
  {
    var first := UnarySound(ts, env, nu, pos);
    var u := ParseUnary(ts, env, nu, pos);
    e := AndRestSound(ts, env, nu, pos, first, u.pos);
  }

  lemma {:induction false} AndRestSound(
    ts: seq<Token>, env: Env, nu: Numerics, start: nat, sofar: Expr, pos: nat) returns (e: Expr)
    requires Closed(ts) && start < pos < |ts| && IsAnd(sofar)
    requires Derives(ts, env, nu, start, pos, Eval(sofar, env, nu), sofar)
    requires AndRest(ts, env, nu, Eval(sofar, env, nu), pos).Got?
    ensures var r := AndRest(ts, env, nu, Eval(sofar, env, nu), pos);
            IsAnd(e) && Derives(ts, env, nu, start, r.pos, r.value, e)
    decreases |ts| - pos, 0
  {
    hide ValueOf, Compare, Truthy, OperandValue;
    if ts[pos] != AndT {
      e := sofar;
    } else {
      var x := UnarySound(ts, env, nu, pos + 1);
      var p := ParseUnary(ts, env, nu, pos + 1).pos;
      e := AndRestSound(ts, env, nu, start, And(sofar, x), p);
    }
  }

  lemma {:induction false} OrSound(ts: seq<Token>, env: Env, nu: Numerics, pos: nat) returns (e: Expr)
    requires Closed(ts) && pos < |ts| && ParseOr(ts, env, nu, pos).Got?
    ensures var r := ParseOr(ts, env, nu, pos);
            IsOr(e) && Derives(ts, env, nu, pos, r.pos, r.value, e)
    decreases |ts| - pos, 4
  {
    var first := AndSound(ts, env, nu, pos);
    var u := ParseAnd(ts, env, nu, pos);
    e := OrRestSound(ts, env, nu, pos, first, u.pos);
  }

  lemma {:induction false} OrRestSound(
    ts: seq<Token>, env: Env, nu: Numerics, start: nat, sofar: Expr, pos: nat) returns (e: Expr)
    requires Closed(ts) && start < pos < |ts| && IsOr(sofar)
    requires Derives(ts, env, nu, start, pos, Eval(sofar, env, nu), sofar)
    requires OrRest(ts, env, nu, Eval(sofar, env, nu), pos).Got?
    ensures var r := OrRest(ts, env, nu, Eval(sofar, env, nu), pos);
            IsOr(e) && Derives(ts, env, nu, start, r.pos, r.value, e)
    decreases |ts| - pos, 0
  {
    hide ValueOf, Compare, Truthy, OperandValue;
    if ts[pos] != OrT {
      e := sofar;
    } else {
      var x := AndSound(ts, env, nu, pos + 1);
      var p := ParseAnd(ts, env, nu, pos + 1).pos;
      e := OrRestSound(ts, env, nu, start, Or(sofar, x), p);
    }
  }

  /** The token list is exactly the tokens of `e` and the end marker. */
  ghost predicate IsDerivation(ts: seq<Token>, e: Expr) {
    IsOr(e) && ts == Yield(e) + [Eof]
  }

  lemma DerivationSpans(ts: seq<Token>, e: Expr)
    requires Closed(ts)
    ensures IsDerivation(ts, e) <==> IsOr(e) && Spans(ts, 0, e) && Width(e) == |ts| - 1
  {
    WidthIsYield(e);
    SpansIsYield(ts, 0, e);
    assert ts == ts[0..|ts| - 1] + [Eof];
  }

  /** Whatever derives the token list decides both success and value. */
  lemma ParseDerivation(ts: seq<Token>, env: Env, nu: Numerics, e: Expr)
    requires Closed(ts) && IsDerivation(ts, e)
    ensures Parse(ts, env, nu) == if Known(e, env) then Some(Eval(e, env, nu)) else None
  {
    DerivationSpans(ts, e);
    OrComplete(ts, env, nu, 0, e);
  }

  /** Parsing succeeds exactly when the tokens derive from the grammar and every identifier is bound. */
  lemma ParseIffDerivable(ts: seq<Token>, env: Env, nu: Numerics, v: bool)
    requires Closed(ts)
    ensures Parse(ts, env, nu) == Some(v) <==>
            exists e :: IsDerivation(ts, e) && Known(e, env) && Eval(e, env, nu) == v
  {
    if Parse(ts, env, nu) == Some(v) {
      var e := OrSound(ts, env, nu, 0);
      DerivationSpans(ts, e);
    }
    if exists e :: IsDerivation(ts, e) && Known(e, env) && Eval(e, env, nu) == v {
      var e :| IsDerivation(ts, e) && Known(e, env) && Eval(e, env, nu) == v;
      ParseDerivation(ts, env, nu, e);
    }
  }
}
