/**
 What conditions mean to their author, in terms of texts and numbers alone: the four
 operators, a bare operand, and the connectives, all of the evaluated text.
 */
module ConditionMeanings {
  import opened Common
  import opened Branching
  import opened Conditions
  import T = Tokenizer

  // ---- operands ---------------------------------------------------------

  /** The operand token stands for the value. */
  ghost predicate Denotes(t: Token, env: Env, nu: Numerics, v: Value) {
    match t
    case NumberT(x) => v == Num(nu.read(x))
    case TextT(s) => v == Str(s)
    case IdentT(x) => x in env && env[x] == v
    case _ => false
  }

  /** The value written down is the text. */
  ghost predicate Writes(v: Value, nu: Numerics, s: string) {
    match v
    case Str(x) => s == x
    case Num(n) => s == nu.show(n)
    case Flag(b) => s == if b then "True" else "False"
  }

  /** `part` stands somewhere in `whole`. */
  ghost predicate PartOf(part: string, whole: string) {
    exists p, q :: whole == p + part + q
  }

  lemma SubstringHasPart(part: string, whole: string)
    requires Substring(part, whole)
    ensures PartOf(part, whole)
  {
    var i :| 0 <= i <= |whole| && part <= whole[i..];
    var p, q := whole[..i], whole[i..][|part|..];
    assert whole == p + whole[i..] && whole[i..] == part + q;
    assert whole == p + part + q;
  }

  lemma PartIsSubstring(part: string, whole: string)
    requires PartOf(part, whole)
    ensures Substring(part, whole)
  {
    var p, q :| whole == p + part + q;
    assert whole[|p|..] == part + q;
  }

  lemma SubstringIsPart(part: string, whole: string)
    ensures Substring(part, whole) <==> PartOf(part, whole)
  {
    hide Substring, PartOf;
    if Substring(part, whole) { SubstringHasPart(part, whole); }
    if PartOf(part, whole) { PartIsSubstring(part, whole); }
  }

  // ---- comparisons ------------------------------------------------------

  lemma PrintedComparison(a: Token, op: Op, b: Token, env: Env, nu: Numerics, l: Value, r: Value)
    requires IsOperand(a) && T.Spellable(a) && Denotes(a, env, nu, l)
    requires IsOperand(b) && T.Spellable(b) && Denotes(b, env, nu, r)
    ensures Evaluate(T.Print([a, OpT(op), b]), env, nu) == Some(Compare(l, op, r, nu))
  {
    var e := Cmp(a, op, b);
    assert IsUnary(e) && IsAnd(e) && IsOr(e) && Yield(e) == [a, OpT(op), b];
    assert ValueOf(a, env, nu) == l && ValueOf(b, env, nu) == r && Known(e, env);
    EvaluatePrinted(e, env, nu);
  }

  lemma PrintOne(t: Token)
    ensures T.Print([t]) == T.Spell(t) + " "
  {
    hide T.Spell;
    assert [t][1..] == [] && T.Spell(t) + " " + "" == T.Spell(t) + " ";
  }

  lemma PrintThree(a: Token, t: Token, b: Token)
    ensures T.Print([a, t, b]) == T.Spell(a) + " " + T.Spell(t) + " " + T.Spell(b) + " "
  {
    hide T.Spell;
    PrintOne(b);
    assert [a, t, b][1..] == [t, b] && [t, b][1..] == [b];
    var x, y, z := T.Spell(a) + " ", T.Spell(t) + " ", T.Spell(b) + " ";
    assert x + (y + z) == T.Spell(a) + " " + T.Spell(t) + " " + T.Spell(b) + " ";
  }

  lemma OperatorWords()
    ensures " " + T.Spell(OpT(In)) + " " == " in " && " " + T.Spell(OpT(Contains)) + " " == " contains "
    ensures " " + T.Spell(OpT(Eq)) + " " == " == " && " " + T.Spell(OpT(Ne)) + " " == " != "
  {
  }

  lemma CompareMeans(l: Value, r: Value, nu: Numerics, s: string, t: string)
    requires Writes(l, nu, s) && Writes(r, nu, t)
    ensures Compare(l, In, r, nu) == PartOf(s, t) && Compare(l, Contains, r, nu) == PartOf(t, s)
    ensures Compare(l, Eq, r, nu) == if l.Num? && r.Num? then l.n == r.n else s == t
    ensures Compare(l, Ne, r, nu) == !(if l.Num? && r.Num? then l.n == r.n else s == t)
  {
    hide Substring, PartOf;
    SubstringIsPart(s, t);
    SubstringIsPart(t, s);
  }

  lemma Written(a: Token, op: Op, mid: string, b: Token)
    requires mid == " " + T.Spell(OpT(op)) + " "
    ensures T.Print([a, OpT(op), b]) == T.Spell(a) + mid + T.Spell(b) + " "
  {
    hide T.Spell, T.Print;
    PrintThree(a, OpT(op), b);
    assert T.Spell(a) + mid == T.Spell(a) + " " + T.Spell(OpT(op)) + " ";
  }

  /**
   The operators on values that read `s` and `t`: `in` and `contains` ask for a part, in
   opposite directions; two numbers are equal as numbers, all else as it reads.
   */
  lemma ComparisonMeans(a: Token, b: Token, env: Env, nu: Numerics, l: Value, r: Value, s: string, t: string)
    requires IsOperand(a) && T.Spellable(a) && Denotes(a, env, nu, l) && Writes(l, nu, s)
    requires IsOperand(b) && T.Spellable(b) && Denotes(b, env, nu, r) && Writes(r, nu, t)
    ensures Evaluate(T.Spell(a) + " in " + T.Spell(b) + " ", env, nu) == Some(PartOf(s, t))
    ensures Evaluate(T.Spell(a) + " contains " + T.Spell(b) + " ", env, nu) == Some(PartOf(t, s))
    ensures Evaluate(T.Spell(a) + " == " + T.Spell(b) + " ", env, nu) ==
            Some(if l.Num? && r.Num? then l.n == r.n else s == t)
    ensures Evaluate(T.Spell(a) + " != " + T.Spell(b) + " ", env, nu) ==
            Some(!(if l.Num? && r.Num? then l.n == r.n else s == t))
  {
    hide Evaluate, T.Print, T.Spell, T.Spellable, PartOf, Compare, Denotes, Writes;
    CompareMeans(l, r, nu, s, t);
    OperatorWords();
    Written(a, In, " in ", b);
    Written(a, Contains, " contains ", b);
    Written(a, Eq, " == ", b);
    Written(a, Ne, " != ", b);
    PrintedComparison(a, In, b, env, nu, l, r);
    PrintedComparison(a, Contains, b, env, nu, l, r);
    PrintedComparison(a, Eq, b, env, nu, l, r);
    PrintedComparison(a, Ne, b, env, nu, l, r);
  }

  // ---- bare operands ----------------------------------------------------

  ghost predicate Blanks(s: string) {
    forall i :: 0 <= i < |s| ==> s[i] in " \t\n\r" || s[i] == '\U{0B}' || s[i] == '\U{0C}'
  }

  /** The same letters as `word`, which is in lower case, each in either case. */
  ghost predicate InAnyCase(s: string, word: string) {
    |s| == |word| && forall i :: 0 <= i < |s| ==> s[i] == word[i] || ('A' <= s[i] <= 'Z' && s[i] - 'A' + 'a' == word[i])
  }

  /** The word `false` in any case, with white space around. */
  ghost predicate ReadsFalse(s: string) {
    exists p, m, q :: s == p + m + q && Blanks(p) && InAnyCase(m, "false") && Blanks(q)
  }

  lemma BlankMore(c: char, s: string)
    requires IsSpace(c) && Blanks(s)
    ensures Blanks([c] + s) && Blanks(s + [c])
  {
  }

  lemma {:induction false} StripLeftParts(s: string) returns (p: string)
    ensures s == p + StripLeft(s) && Blanks(p)
    ensures StripLeft(s) != "" ==> !IsSpace(StripLeft(s)[0])
  {
    hide Blanks;
    if s != "" && IsSpace(s[0]) {
      var p' := StripLeftParts(s[1..]);
      BlankMore(s[0], p');
      p := [s[0]] + p';
      assert s == [s[0]] + s[1..];
    } else {
      p := "";
      NoBlanks();
    }
  }

  lemma NoBlanks()
    ensures Blanks("")
  {
  }

  lemma {:induction false} StripRightParts(s: string) returns (q: string)
    ensures s == StripRight(s) + q && Blanks(q)
    ensures StripRight(s) != "" ==> !IsSpace(StripRight(s)[|StripRight(s)| - 1]) && StripRight(s)[0] == s[0]
    decreases |s|
  {
    hide Blanks;
    if s != "" && IsSpace(s[|s| - 1]) {
      var q' := StripRightParts(s[..|s| - 1]);
      BlankMore(s[|s| - 1], q');
      q := q' + [s[|s| - 1]];
      assert s == s[..|s| - 1] + [s[|s| - 1]];
    } else {
      q := "";
      NoBlanks();
    }
  }

  lemma {:induction false} StripLeftOf(p: string, m: string)
    requires Blanks(p) && (m != "" ==> !IsSpace(m[0]))
    ensures StripLeft(p + m) == m
  {
    if p == "" {
      assert p + m == m;
    } else {
      assert (p + m)[1..] == p[1..] + m && (p + m)[0] == p[0];
      StripLeftOf(p[1..], m);
    }
  }

  lemma {:induction false} StripRightOf(m: string, q: string)
    requires Blanks(q) && (m != "" ==> !IsSpace(m[|m| - 1]))
    ensures StripRight(m + q) == m
    decreases |q|
  {
    if q == "" {
      assert m + q == m;
    } else {
      var n := |q| - 1;
      assert (m + q)[..|m + q| - 1] == m + q[..n] && (m + q)[|m + q| - 1] == q[n];
      StripRightOf(m, q[..n]);
    }
  }

  /** Stripping takes the white space at both ends and nothing else. */
  lemma StripMeans(s: string) returns (p: string, q: string)
    ensures s == p + Strip(s) + q && Blanks(p) && Blanks(q)
    ensures Strip(s) != "" ==> !IsSpace(Strip(s)[0]) && !IsSpace(Strip(s)[|Strip(s)| - 1])
  {
    p := StripLeftParts(s);
    q := StripRightParts(StripLeft(s));
    assert p + (Strip(s) + q) == p + Strip(s) + q;
  }

  lemma StripOf(p: string, m: string, q: string)
    requires Blanks(p) && Blanks(q) && m != "" && !IsSpace(m[0]) && !IsSpace(m[|m| - 1])
    ensures Strip(p + m + q) == m
  {
    assert p + m + q == p + (m + q);
    StripLeftOf(p, m + q);
    StripRightOf(m, q);
  }

  lemma LowerIsFalse(m: string)
    ensures Lower(m) == "false" <==> InAnyCase(m, "false")
  {
  }

  lemma FalseWord(s: string)
    ensures Lower(Strip(s)) == "false" <==> ReadsFalse(s)
  {
    hide Strip, Lower, Blanks, IsSpace;
    if Lower(Strip(s)) == "false" {
      var p, q := StripMeans(s);
      LowerIsFalse(Strip(s));
    }
    if ReadsFalse(s) {
      var p, m, q :| s == p + m + q && Blanks(p) && InAnyCase(m, "false") && Blanks(q);
      FalseHasEnds(m);
      StripOf(p, m, q);
      LowerIsFalse(m);
    }
  }

  lemma FalseHasEnds(m: string)
    requires InAnyCase(m, "false")
    ensures m != "" && !IsSpace(m[0]) && !IsSpace(m[|m| - 1])
  {
  }

  lemma PrintedOperand(a: Token, env: Env, nu: Numerics, v: Value)
    requires IsOperand(a) && T.Spellable(a) && Denotes(a, env, nu, v)
    ensures Evaluate(T.Spell(a) + " ", env, nu) == Some(Truthy(v))
  {
    var e := Bare(a);
    assert IsUnary(e) && IsAnd(e) && IsOr(e) && Yield(e) == [a];
    assert ValueOf(a, env, nu) == v && Known(e, env);
    EvaluatePrinted(e, env, nu);
    PrintOne(a);
    hide T.Print, T.Spell, Evaluate, Truthy;
  }

  /** A bare operand: text holds unless it is empty or reads `false`, a number unless it is zero. */
  lemma BareMeans(a: Token, env: Env, nu: Numerics, v: Value)
    requires IsOperand(a) && T.Spellable(a) && Denotes(a, env, nu, v)
    ensures Evaluate(T.Spell(a) + " ", env, nu) ==
            Some(if v.Str? then v.s != "" && !ReadsFalse(v.s) else if v.Num? then v.n != 0.0 else v.b)
  {
    hide Evaluate, Strip, Lower, ReadsFalse;
    PrintedOperand(a, env, nu, v);
    if v.Str? {
      FalseWord(v.s);
      EmptyStrips();
      if Lower(Strip(v.s)) == "true" { assert v.s != ""; }
    }
  }

  lemma EmptyStrips()
    ensures Lower(Strip("")) == "" && Strip("") == ""
  {
  }

  /** A condition of white space alone, or of nothing, holds. */
  lemma BlankHolds(s: string, env: Env, nu: Numerics)
    requires Blanks(s)
    ensures Evaluate(s, env, nu) == Some(true)
  {
    var p, q := StripMeans(s);
    if Strip(s) != "" {
      assert s[|p|] == Strip(s)[0] && IsSpace(s[|p|]);
      assert false;
    }
  }

  // ---- connectives ------------------------------------------------------

  ghost predicate Printable(e: Expr) {
    forall t :: t in Yield(e) ==> T.Spellable(t)
  }

  function Text(e: Expr): string {
    T.Print(Yield(e))
  }

  lemma {:induction false} PrintConcat(a: seq<Token>, b: seq<Token>)
    ensures T.Print(a + b) == T.Print(a) + T.Print(b)
  {
    hide T.Spell;
    if a == [] {
      assert a + b == b;
    } else {
      assert (a + b)[1..] == a[1..] + b && (a + b)[0] == a[0];
      PrintConcat(a[1..], b);
      var w := T.Spell(a[0]) + " ";
      assert w + (T.Print(a[1..]) + T.Print(b)) == w + T.Print(a[1..]) + T.Print(b);
    }
  }

  lemma PrintJoin(l: Expr, t: Token, r: Expr)
    ensures T.Print(Yield(l) + [t] + Yield(r)) == Text(l) + T.Spell(t) + " " + Text(r)
  {
    hide T.Spell, Yield;
    PrintConcat(Yield(l) + [t], Yield(r));
    PrintConcat(Yield(l), [t]);
    PrintOne(t);
    assert Text(l) + (T.Spell(t) + " ") == Text(l) + T.Spell(t) + " ";
  }

  /** Two conditions joined by `or`, the right one without an outer `or`: true if one is, without a value if one is. */
  lemma OrMeans(l: Expr, r: Expr, env: Env, nu: Numerics)
    requires IsOr(l) && IsOr(r) && IsAnd(r) && Printable(l) && Printable(r)
    ensures Evaluate(Text(l) + "or " + Text(r), env, nu) ==
            var x, y := Evaluate(Text(l), env, nu), Evaluate(Text(r), env, nu);
            if x.Some? && y.Some? then Some(x.value || y.value) else None
  {
    hide Evaluate, T.Print;
    var e := Or(l, r);
    EvaluatePrinted(l, env, nu);
    EvaluatePrinted(r, env, nu);
    EvaluatePrinted(e, env, nu);
    PrintJoin(l, OrT, r);
    assert Text(l) + "or" + " " == Text(l) + "or ";
  }

  /** Two conditions joined by `and`, neither with an outer `or`, the right one without an outer `and`. */
  lemma AndMeans(l: Expr, r: Expr, env: Env, nu: Numerics)
    requires IsOr(l) && IsOr(r) && IsAnd(l) && IsUnary(r) && Printable(l) && Printable(r)
    ensures Evaluate(Text(l) + "and " + Text(r), env, nu) ==
            var x, y := Evaluate(Text(l), env, nu), Evaluate(Text(r), env, nu);
            if x.Some? && y.Some? then Some(x.value && y.value) else None
  {
    hide Evaluate, T.Print;
    var e := And(l, r);
    assert IsAnd(e) && IsOr(e);
    EvaluatePrinted(l, env, nu);
    EvaluatePrinted(r, env, nu);
    EvaluatePrinted(e, env, nu);
    PrintJoin(l, AndT, r);
    assert Text(l) + "and" + " " == Text(l) + "and ";
  }

  /** `not` in front of a condition without outer connectives turns its value round. */
  lemma NotMeans(x: Expr, env: Env, nu: Numerics)
    requires IsOr(x) && IsUnary(x) && Printable(x)
    ensures Evaluate("not " + Text(x), env, nu) ==
            var v := Evaluate(Text(x), env, nu);
            if v.Some? then Some(!v.value) else None
  {
    hide Evaluate, T.Print;
    var e := Not(x);
    assert IsUnary(e) && IsAnd(e) && IsOr(e);
    EvaluatePrinted(x, env, nu);
    EvaluatePrinted(e, env, nu);
    PrintConcat([NotT], Yield(x));
    PrintOne(NotT);
    assert "not" + " " == "not ";
  }
}
