/** Small helper types and sequence facts shared by every module. */
module Common {

  datatype Option<+T> = None | Some(value: T)

  datatype Result<+T, +E> = Ok(value: T) | Err(error: E)

  ghost predicate Distinct<T>(s: seq<T>) {
    forall i, j :: 0 <= i < j < |s| ==> s[i] != s[j]
  }

  /** The elements of `s` that are not in `r`, in their order. */
  function Without<T(==,!new)>(s: seq<T>, r: set<T>): (kept: seq<T>)
    ensures forall x :: x in kept <==> x in s && x !in r
  {
    if s == [] then []
    else
      var last := s[|s| - 1];
      SplitLast(s);
      Without(s[..|s| - 1], r) + (if last in r then [] else [last])
  }

  lemma WithoutSnoc<T(!new)>(s: seq<T>, x: T, r: set<T>)
    ensures Without(s + [x], r) == Without(s, r) + (if x in r then [] else [x])
  {
    assert (s + [x])[..|s|] == s;
  }

  lemma SplitLast<T>(s: seq<T>)
    requires s != []
    ensures s == s[..|s| - 1] + [s[|s| - 1]]
  {
  }

  lemma TakeOneMore<T>(s: seq<T>, i: nat)
    requires i < |s|
    ensures s[..i + 1] == s[..i] + [s[i]]
  {
  }

  lemma TakeInto<T>(a: seq<T>, b: seq<T>, k: nat)
    requires 0 < k <= |b|
    ensures |a + b[..k]| == |a| + k
    ensures (a + b[..k])[..|a| + k - 1] == a + b[..k - 1] && (a + b[..k])[|a| + k - 1] == b[k - 1]
  {
  }

  lemma ConsAppend<T>(s: seq<T>, x: T)
    requires s != []
    ensures s + [x] == [s[0]] + (s[1..] + [x])
  {
  }

  /** A sequence without repetitions drawn from a set is no longer than the set. */
  lemma {:induction false} Pigeonhole<T>(s: seq<T>, pool: set<T>)
    requires Distinct(s)
    requires forall x :: x in s ==> x in pool
    ensures |s| <= |pool|
  {
    if s == [] {
    } else {
      var last := s[|s| - 1];
      var front := s[..|s| - 1];
      forall x | x in front ensures x in pool - {last} {
        var i :| 0 <= i < |front| && front[i] == x;
        assert s[i] == x;
      }
      Pigeonhole(front, pool - {last});
    }
  }

  ghost predicate Increasing(at: seq<nat>) {
    forall i, j :: 0 <= i < j < |at| ==> at[i] < at[j]
  }
}
