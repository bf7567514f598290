/**
 One workspace name per task: a requested name, or a numbered variant of it, or an
 automatic one. Both searches for an unused name end, because the names they try are
 pairwise distinct and only finitely many are used.
 */
module Workspaces {
  import opened Common

  function Digit(d: nat): (c: char)
    requires d < 10
    ensures '0' <= c <= '9' && c as int == '0' as int + d
  {
    ('0' as int + d) as char
  }

  function Decimal(n: nat): string {
    if n < 10 then [Digit(n)] else Decimal(n / 10) + [Digit(n % 10)]
  }

  lemma {:induction false} DecimalInjective(a: nat, b: nat)
    requires Decimal(a) == Decimal(b)
    ensures a == b
  {
    var s := Decimal(a);
    assert s != [] && s[|s| - 1] == Digit(a % 10) == Digit(b % 10);
    if a >= 10 && b >= 10 {
      assert s[..|s| - 1] == Decimal(a / 10) == Decimal(b / 10);
      DecimalInjective(a / 10, b / 10);
    } else if a >= 10 {
      DecimalLonger(a);
    } else if b >= 10 {
      DecimalLonger(b);
    }
  }

  lemma DecimalLonger(a: nat)
    requires a >= 10
    ensures |Decimal(a)| >= 2
  {
    assert Decimal(a / 10) != [];
  }

  /** What a decimal text says, its digits read from the left. */
  ghost function Says(s: string): int {
    if s == "" then 0 else 10 * Says(s[..|s| - 1]) + (s[|s| - 1] as int - '0' as int)
  }

  lemma {:induction false} DecimalReadsBack(n: nat)
    ensures Says(Decimal(n)) == n && Decimal(n) != "" && (n > 0 ==> Decimal(n)[0] != '0')
  {
    var s := Decimal(n);
    if n >= 10 {
      DecimalReadsBack(n / 10);
      assert s[..|s| - 1] == Decimal(n / 10);
    } else {
      assert s[..0] == "";
    }
  }

  // ---- the names tried --------------------------------------------------

  function Numbered(name: string, k: nat): string {
    if k == 0 then name else name + "-" + Decimal(k)
  }

  function Suffixed(name: string, k: nat): (s: string)
    ensures |s| == |name| + 2 * k
  {
    if k == 0 then name else Suffixed(name, k - 1) + "-x"
  }

  predicate IsRequested(requested: seq<string>, i: nat) {
    i < |requested| && requested[i] != ""
  }

  /** The name tried for task `i` after `k` others were in use. */
  function Attempt(requested: seq<string>, prefix: string, i: nat, k: nat): string {
    if IsRequested(requested, i) then Numbered(requested[i], k)
    else Suffixed(prefix + "-" + Decimal(i + 1), k)
  }

  /** A requested name is tried as it is, then with a number from one on; an automatic one carries its place, then `-x` again and again. */
  lemma AttemptNames(requested: seq<string>, prefix: string, i: nat, k: nat)
    ensures IsRequested(requested, i) ==>
              && Attempt(requested, prefix, i, 0) == requested[i]
              && Attempt(requested, prefix, i, k + 1) == requested[i] + "-" + Decimal(k + 1)
    ensures !IsRequested(requested, i) ==>
              && Attempt(requested, prefix, i, 0) == prefix + "-" + Decimal(i + 1)
              && Attempt(requested, prefix, i, k + 1) == Attempt(requested, prefix, i, k) + "-x"
  {
  }

  lemma AttemptsDiffer(requested: seq<string>, prefix: string, i: nat, j: nat, k: nat)
    requires j < k
    ensures Attempt(requested, prefix, i, j) != Attempt(requested, prefix, i, k)
  {
    if IsRequested(requested, i) {
      var name := requested[i];
      if j != 0 && Numbered(name, j) == Numbered(name, k) {
        assert (name + "-" + Decimal(j))[|name| + 1..] == Decimal(j);
        assert (name + "-" + Decimal(k))[|name| + 1..] == Decimal(k);
        DecimalInjective(j, k);
      }
      if j == 0 {
        assert |Numbered(name, k)| > |name|;
      }
    }
  }

  ghost predicate AllUsed(requested: seq<string>, prefix: string, i: nat, k: nat, used: set<string>) {
    forall j: nat :: j < k ==> Attempt(requested, prefix, i, j) in used
  }

  /** As many attempts as are in use cannot exceed the names in use. */
  lemma AttemptsBounded(requested: seq<string>, prefix: string, i: nat, k: nat, used: set<string>)
    requires AllUsed(requested, prefix, i, k, used)
    ensures k <= |used|
  {
    var tried := seq(k, j requires 0 <= j < k => Attempt(requested, prefix, i, j));
    forall a, b | 0 <= a < b < k ensures tried[a] != tried[b] {
      AttemptsDiffer(requested, prefix, i, a, b);
    }
    Pigeonhole(tried, used);
  }

  /** The first attempt for task `i` that is not in use. */
  ghost predicate FirstFree(requested: seq<string>, prefix: string, i: nat, used: set<string>, name: string) {
    name !in used &&
    exists k: nat :: name == Attempt(requested, prefix, i, k) && AllUsed(requested, prefix, i, k, used)
  }

  // ---- the assignment ---------------------------------------------------

  function NameSet(names: seq<string>): set<string> {
    set n | n in names
  }

  ghost predicate Assigns(out: seq<string>, requested: seq<string>, prefix: string) {
    forall i :: 0 <= i < |out| ==> FirstFree(requested, prefix, i, NameSet(out[..i]), out[i])
  }

  method FreshName(requested: seq<string>, prefix: string, i: nat, used: set<string>) returns (name: string)
    ensures FirstFree(requested, prefix, i, used, name)
  {
    if IsRequested(requested, i) {
      name := FreshNumbered(requested, prefix, i, used);
    } else {
      name := FreshSuffixed(requested, prefix, i, used);
    }
  }

  method FreshNumbered(requested: seq<string>, prefix: string, i: nat, used: set<string>) returns (name: string)
    requires IsRequested(requested, i)
    ensures FirstFree(requested, prefix, i, used, name)
  {
    name := requested[i];
    var n := 1;
    while name in used
      invariant n >= 1 && name == Attempt(requested, prefix, i, n - 1)
      invariant AllUsed(requested, prefix, i, n - 1, used)
      decreases |used| + 1 - n
    {
      AttemptsBounded(requested, prefix, i, n, used);
      name := requested[i] + "-" + Decimal(n);
      n := n + 1;
    }
  }

  method FreshSuffixed(requested: seq<string>, prefix: string, i: nat, used: set<string>) returns (name: string)
    requires !IsRequested(requested, i)
    ensures FirstFree(requested, prefix, i, used, name)
  {
    name := prefix + "-" + Decimal(i + 1);
    ghost var k: nat := 0;
    while name in used
      invariant name == Attempt(requested, prefix, i, k)
      invariant AllUsed(requested, prefix, i, k, used)
      decreases |used| - k
    {
      AttemptsBounded(requested, prefix, i, k + 1, used);
      name := name + "-x";
      k := k + 1;
    }
  }

  method AutoWorkspaces(tasks: seq<string>, requested: seq<string>, prefix: string) returns (out: seq<string>)
    ensures |out| == |tasks| && Distinct(out)
    ensures Assigns(out, requested, prefix)
    ensures forall i :: 0 <= i < |out| && IsRequested(requested, i) ==>
              (out[i] == requested[i] <==> requested[i] !in out[..i])
  {
    out := [];
    var used := {};
    for i := 0 to |tasks|
      invariant |out| == i && used == NameSet(out)
      invariant Assigns(out, requested, prefix)
    {
      var name := FreshName(requested, prefix, i, used);
      AssignsOneMore(out, requested, prefix, name);
      out := out + [name];
      used := used + {name};
    }
    AssignedDistinct(out, requested, prefix);
  }

  lemma AssignsOneMore(out: seq<string>, requested: seq<string>, prefix: string, name: string)
    requires Assigns(out, requested, prefix)
    requires FirstFree(requested, prefix, |out|, NameSet(out), name)
    ensures Assigns(out + [name], requested, prefix)
  {
    var more := out + [name];
    forall i | 0 <= i < |more| ensures FirstFree(requested, prefix, i, NameSet(more[..i]), more[i]) {
      assert more[..i] == out[..i];
      assert out[..|out|] == out;
    }
  }

  /** Assigned names are distinct, and a requested name is kept exactly when no earlier task has it. */
  lemma AssignedDistinct(out: seq<string>, requested: seq<string>, prefix: string)
    requires Assigns(out, requested, prefix)
    ensures Distinct(out)
    ensures forall i :: 0 <= i < |out| && IsRequested(requested, i) ==>
              (out[i] == requested[i] <==> requested[i] !in out[..i])
  {
    forall i, j | 0 <= i < j < |out| ensures out[i] != out[j] {
      assert FirstFree(requested, prefix, j, NameSet(out[..j]), out[j]);
      assert out[..j][i] == out[i];
    }
    forall i | 0 <= i < |out| && IsRequested(requested, i)
      ensures out[i] == requested[i] <==> requested[i] !in out[..i]
    {
      var used := NameSet(out[..i]);
      assert FirstFree(requested, prefix, i, used, out[i]);
      var k: nat :| out[i] == Attempt(requested, prefix, i, k) && AllUsed(requested, prefix, i, k, used);
      if k > 0 { assert Attempt(requested, prefix, i, 0) in used; }
    }
  }

  /** The names are determined: there is one assignment for a list of tasks and requests. */
  lemma {:induction false} AssignmentUnique(a: seq<string>, b: seq<string>, requested: seq<string>, prefix: string)
    requires |a| == |b| && Assigns(a, requested, prefix) && Assigns(b, requested, prefix)
    ensures a == b
  {
    if a != [] {
      var n := |a| - 1;
      AssignsPrefix(a, requested, prefix);
      AssignsPrefix(b, requested, prefix);
      AssignmentUnique(a[..n], b[..n], requested, prefix);
      var used := NameSet(a[..n]);
      assert FirstFree(requested, prefix, n, used, a[n]) && FirstFree(requested, prefix, n, used, b[n]);
      var k: nat :| a[n] == Attempt(requested, prefix, n, k) && AllUsed(requested, prefix, n, k, used);
      var l: nat :| b[n] == Attempt(requested, prefix, n, l) && AllUsed(requested, prefix, n, l, used);
      SplitLast(a);
      SplitLast(b);
    }
  }

  lemma AssignsPrefix(a: seq<string>, requested: seq<string>, prefix: string)
    requires a != [] && Assigns(a, requested, prefix)
    ensures Assigns(a[..|a| - 1], requested, prefix)
  {
    var p := a[..|a| - 1];
    forall i | 0 <= i < |p| ensures FirstFree(requested, prefix, i, NameSet(p[..i]), p[i]) {
      assert p[..i] == a[..i];
    }
  }

  /** Distinct requests, one for every task, come back as they are. */
  lemma {:induction false} DistinctRequestsKept(out: seq<string>, requested: seq<string>, prefix: string)
    requires Assigns(out, requested, prefix) && |out| <= |requested|
    requires Distinct(requested) && forall i :: 0 <= i < |out| ==> requested[i] != ""
    ensures out == requested[..|out|]
  {
    if out != [] {
      var n := |out| - 1;
      AssignsPrefix(out, requested, prefix);
      DistinctRequestsKept(out[..n], requested, prefix);
      AssignedDistinct(out, requested, prefix);
      assert IsRequested(requested, n);
      assert requested[n] !in requested[..n];
      SplitLast(out);
      TakeOneMore(requested, n);
    }
  }
}
