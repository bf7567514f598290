/**
 Loop detection over a token window: repeated n-grams counted in a table, and the
 overlap of the two half windows. Rates are exact fractions.
 */
module Repetition {

  datatype Detector = Detector(n: nat, windowTokens: nat, rateThreshold: real, adjacencyThreshold: real)

  datatype Verdict = Verdict(repeated: bool, ngramRate: real, adjacentSimilarity: real)

  /** `w` is the end of the text: its last `k` tokens, or all of them if there are fewer or `k` is zero. */
  ghost predicate IsWindow<T>(tokens: seq<T>, k: nat, w: seq<T>) {
    && |w| <= |tokens| && tokens[|tokens| - |w|..] == w
    && |w| == (if k == 0 || k >= |tokens| then |tokens| else k)
  }

  /** The last `k` tokens; a window of zero keeps everything, as slicing from minus zero does. */
  function Window<T>(tokens: seq<T>, k: nat): (w: seq<T>)
    ensures IsWindow(tokens, k, w)
  {
    if k == 0 || k >= |tokens| then tokens else tokens[|tokens| - k..]
  }

  function Positions<T>(tokens: seq<T>, n: nat): nat {
    if |tokens| < n then 0 else |tokens| - n + 1
  }

  function Gram<T>(tokens: seq<T>, n: nat, i: nat): seq<T>
    requires i < Positions(tokens, n)
  {
    tokens[i..i + n]
  }

  // ---- what is counted --------------------------------------------------

  /** The n-grams at the first `k` positions, with multiplicity. */
  ghost function Bag<T>(tokens: seq<T>, n: nat, k: nat): (b: multiset<seq<T>>)
    requires k <= Positions(tokens, n)
    ensures |b| == k
  {
    if k == 0 then multiset{} else Bag(tokens, n, k - 1) + multiset{Gram(tokens, n, k - 1)}
  }

  ghost predicate OccursBefore<T>(tokens: seq<T>, n: nat, g: seq<T>, k: nat)
    requires k <= Positions(tokens, n)
  {
    exists i :: 0 <= i < k && Gram(tokens, n, i) == g
  }

  ghost predicate TwiceBefore<T>(tokens: seq<T>, n: nat, g: seq<T>, k: nat)
    requires k <= Positions(tokens, n)
  {
    exists j :: 0 <= j < k && Gram(tokens, n, j) == g && OccursBefore(tokens, n, g, j)
  }

  /** The n-grams that stand at two different positions. */
  ghost predicate OccursTwice<T>(tokens: seq<T>, n: nat, g: seq<T>) {
    TwiceBefore(tokens, n, g, Positions(tokens, n))
  }

  ghost predicate IsRepeatedSet<T(!new)>(tokens: seq<T>, n: nat, r: set<seq<T>>) {
    forall g :: g in r <==> OccursTwice(tokens, n, g)
  }

  lemma {:induction false} BagHas<T>(tokens: seq<T>, n: nat, k: nat, g: seq<T>)
    requires k <= Positions(tokens, n)
    ensures Bag(tokens, n, k)[g] >= 1 <==> OccursBefore(tokens, n, g, k)
  {
    if k > 0 {
      BagHas(tokens, n, k - 1, g);
      BagStep(tokens, n, k, g);
    }
  }

  lemma BagStep<T>(tokens: seq<T>, n: nat, k: nat, g: seq<T>)
    requires 0 < k <= Positions(tokens, n)
    ensures Bag(tokens, n, k)[g] == Bag(tokens, n, k - 1)[g] + (if Gram(tokens, n, k - 1) == g then 1 else 0)
  {
  }

  lemma {:induction false} BagHasTwo<T>(tokens: seq<T>, n: nat, k: nat, g: seq<T>)
    requires k <= Positions(tokens, n)
    ensures Bag(tokens, n, k)[g] >= 2 <==> TwiceBefore(tokens, n, g, k)
  {
    hide OccursBefore, Bag;
    if k > 0 {
      BagHasTwo(tokens, n, k - 1, g);
      BagHas(tokens, n, k - 1, g);
      BagStep(tokens, n, k, g);
    } else {
      BagEmpty(tokens, n, g);
    }
  }

  lemma BagEmpty<T>(tokens: seq<T>, n: nat, g: seq<T>)
    ensures Bag(tokens, n, 0)[g] == 0
  {
  }

  /** The table holds exactly the multiplicities of the bag. */
  ghost predicate Tabulates<X(!new)>(counts: map<X, nat>, b: multiset<X>) {
    forall g :: (g in counts <==> b[g] >= 1) && (g in counts ==> counts[g] == b[g])
  }

  lemma CountOne<X(!new)>(counts: map<X, nat>, b: multiset<X>, g: X)
    requires Tabulates(counts, b)
    ensures Tabulates(counts[g := (if g in counts then counts[g] else 0) + 1], b + multiset{g})
  {
  }

  method NgramRepetitionRate<T(==,!new)>(tokens: seq<T>, n: nat) returns (rate: real, ghost repeated: set<seq<T>>)
    ensures IsRepeatedSet(tokens, n, repeated)
    ensures |tokens| < n ==> rate == 0.0
    ensures |tokens| >= n ==> rate == |repeated| as real / Positions(tokens, n) as real
  {
    hide OccursTwice, IsRepeatedSet;
    var total := Positions(tokens, n);
    if |tokens| < n {
      NoPositions(tokens, n);
      repeated := {};
      return 0.0, {};
    }
    var counts: map<seq<T>, nat> := map[];
    for i := 0 to total
      invariant Tabulates(counts, Bag(tokens, n, i))
    {
      var gram := Gram(tokens, n, i);
      CountOne(counts, Bag(tokens, n, i), gram);
      counts := counts[gram := (if gram in counts then counts[gram] else 0) + 1];
    }
    var again := set g | g in counts && counts[g] > 1;
    RepeatedAre(tokens, n, counts, again);
    repeated := again;
    rate := |again| as real / total as real;
  }

  lemma NoPositions<T(!new)>(tokens: seq<T>, n: nat)
    requires |tokens| < n
    ensures IsRepeatedSet(tokens, n, {})
  {
  }

  lemma RepeatedAre<T(!new)>(tokens: seq<T>, n: nat, counts: map<seq<T>, nat>, again: set<seq<T>>)
    requires Tabulates(counts, Bag(tokens, n, Positions(tokens, n)))
    requires forall g :: g in again <==> g in counts && counts[g] > 1
    ensures IsRepeatedSet(tokens, n, again)
  {
    forall g ensures g in again <==> OccursTwice(tokens, n, g) {
      BagHasTwo(tokens, n, Positions(tokens, n), g);
    }
  }

  // ---- bounds on the rate -----------------------------------------------

  lemma {:induction false} TwiceEach<X>(r: set<X>, b: multiset<X>)
    requires forall x :: x in r ==> b[x] >= 2
    ensures 2 * |r| <= |b|
    decreases r
  {
    if r != {} {
      var x :| x in r;
      var rest := b[x := 0];
      assert b == rest + multiset{x}[x := b[x]];
      TwiceEach(r - {x}, rest);
    }
  }

  /** Every repeated gram needs two positions, so the rate never exceeds one half. */
  lemma RepeatedAtMostHalf<T(!new)>(tokens: seq<T>, n: nat, r: set<seq<T>>)
    requires IsRepeatedSet(tokens, n, r)
    ensures 2 * |r| <= Positions(tokens, n)
  {
    var k := Positions(tokens, n);
    forall g | g in r ensures Bag(tokens, n, k)[g] >= 2 { BagHasTwo(tokens, n, k, g); }
    TwiceEach(r, Bag(tokens, n, k));
  }

  ghost predicate Periodic<T>(w: seq<T>, p: nat) {
    p > 0 && forall i :: 0 <= i && i + p < |w| ==> w[i] == w[i + p]
  }

  /** The grams at the first `k` positions as a set. */
  ghost function FirstGrams<T>(tokens: seq<T>, n: nat, k: nat): (s: set<seq<T>>)
    requires k <= Positions(tokens, n)
    ensures |s| <= k
  {
    if k == 0 then {} else FirstGrams(tokens, n, k - 1) + {Gram(tokens, n, k - 1)}
  }

  lemma {:induction false} FirstGramsHolds<T>(tokens: seq<T>, n: nat, k: nat, i: nat)
    requires i < k <= Positions(tokens, n)
    ensures Gram(tokens, n, i) in FirstGrams(tokens, n, k)
  {
    if i < k - 1 { FirstGramsHolds(tokens, n, k - 1, i); }
  }

  /** Under a period every gram already stands within the first period. */
  lemma {:induction false} GramWithinPeriod<T>(w: seq<T>, n: nat, p: nat, i: nat) returns (j: nat)
    requires Periodic(w, p) && i < Positions(w, n)
    ensures j < p && j <= i && Gram(w, n, j) == Gram(w, n, i)
    decreases i
  {
    if i < p {
      j := i;
    } else {
      var a, b := Gram(w, n, i - p), Gram(w, n, i);
      forall k | 0 <= k < n ensures a[k] == b[k] { assert w[i - p + k] == w[(i - p + k) + p]; }
      assert Gram(w, n, i - p) == Gram(w, n, i);
      j := GramWithinPeriod(w, n, p, i - p);
    }
  }

  lemma {:induction false} SubsetSize<X>(a: set<X>, b: set<X>)
    requires a <= b
    ensures |a| <= |b|
    decreases a
  {
    if a != {} {
      var x :| x in a;
      SubsetSize(a - {x}, b - {x});
    }
  }

  /** Under period `p` at most `p` different grams repeat, however long the window is. */
  lemma RepeatedAtMostPeriod<T(!new)>(w: seq<T>, n: nat, p: nat, r: set<seq<T>>)
    requires Periodic(w, p) && IsRepeatedSet(w, n, r)
    ensures |r| <= p
  {
    var k := if p < Positions(w, n) then p else Positions(w, n);
    forall g | g in r ensures g in FirstGrams(w, n, k) {
      var i :| 0 <= i < Positions(w, n) && Gram(w, n, i) == g;
      var j := GramWithinPeriod(w, n, p, i);
      FirstGramsHolds(w, n, k, j);
    }
    SubsetSize(r, FirstGrams(w, n, k));
  }

  // ---- adjacent halves --------------------------------------------------

  function TokenSet<T(==)>(s: seq<T>): set<T> {
    set i | 0 <= i < |s| :: s[i]
  }

  function Max(a: nat, b: nat): nat {
    if a < b then b else a
  }

  /** Common tokens of the two half windows over the larger token set. */
  function AdjacentSimilarity<T(==)>(w: seq<T>): (r: real) {
    if |w| < 2 then 0.0
    else
      var a, b := TokenSet(w[..|w| / 2]), TokenSet(w[|w| / 2..]);
      assert w[..|w| / 2][0] in a;
      assert a != {};
      |a * b| as real / Max(|a|, |b|) as real
  }

  /** The similarity is one exactly when both halves hold the same tokens. */
  lemma SimilarityOneIff<T>(w: seq<T>)
    requires |w| >= 2
    ensures 0.0 <= AdjacentSimilarity(w) <= 1.0
    ensures AdjacentSimilarity(w) == 1.0 <==> TokenSet(w[..|w| / 2]) == TokenSet(w[|w| / 2..])
  {
    var a, b := TokenSet(w[..|w| / 2]), TokenSet(w[|w| / 2..]);
    assert w[..|w| / 2][0] in a;
    SubsetSize(a * b, a);
    SubsetSize(a * b, b);
    var m := Max(|a|, |b|);
    if a == b { assert a * b == a; }
    FractionOne(|a * b|, m);
    if |a * b| == m {
      SameSize(a * b, a);
      SameSize(a * b, b);
    }
  }

  lemma FractionOne(x: nat, m: nat)
    requires m > 0 && x <= m
    ensures 0.0 <= x as real / m as real <= 1.0
    ensures x as real / m as real == 1.0 <==> x == m
  {
    var q := x as real / m as real;
    assert q * m as real == x as real;
    ScaleDown(0.0, q, m as real);
    ScaleDown(q, 1.0, m as real);
    if x == m { ScaleDown(1.0, q, m as real); }
  }

  lemma SameSize<X>(a: set<X>, b: set<X>)
    requires a <= b && |a| >= |b|
    ensures a == b
  {
    if exists x :: x in b && x !in a {
      var x :| x in b && x !in a;
      SubsetSize(a, b - {x});
      assert false;
    }
  }

  /** Going on by whole periods: every token of the window stands at each later offset of its residue. */
  lemma {:induction false} PeriodStep<T>(w: seq<T>, p: nat, i: nat, k: nat)
    requires Periodic(w, p) && i + k * p < |w|
    ensures w[i] == w[i + k * p]
    decreases k
  {
    if k > 0 {
      assert i + k * p == (i + (k - 1) * p) + p;
      PeriodStep(w, p, i, k - 1);
    }
  }

  /** From `i`, steps of one period reach into `[lo, lo + p)`. */
  lemma {:induction false} ReachForward(i: nat, p: nat, lo: nat) returns (k: nat)
    requires p > 0 && i < lo + p
    ensures lo <= i + k * p < lo + p
    decreases lo + p - i
  {
    if i >= lo {
      k := 0;
    } else {
      var j := ReachForward(i + p, p, lo);
      k := j + 1;
      assert i + k * p == (i + p) + j * p;
    }
  }

  /** A token of the window stands again in any stretch of one period behind it. */
  lemma AgainBehind<T>(w: seq<T>, p: nat, i: nat, lo: nat) returns (j: nat)
    requires Periodic(w, p) && i < lo + p <= |w|
    ensures lo <= j < lo + p && w[j] == w[i]
  {
    var k := ReachForward(i, p, lo);
    j := i + k * p;
    PeriodStep(w, p, i, k);
  }

  lemma {:induction false} BackToFirstPeriod<T>(w: seq<T>, p: nat, i: nat) returns (j: nat)
    requires Periodic(w, p) && i < |w|
    ensures j < p && j <= i && w[j] == w[i]
    decreases i
  {
    if i < p {
      j := i;
    } else {
      assert w[i - p] == w[(i - p) + p];
      j := BackToFirstPeriod(w, p, i - p);
    }
  }

  lemma PeriodicHalvesEqual<T>(w: seq<T>, p: nat)
    requires Periodic(w, p) && p <= |w| / 2
    ensures |w| >= 2 && TokenSet(w[..|w| / 2]) == TokenSet(w[|w| / 2..])
  {
    var half := |w| / 2;
    var a, b := w[..half], w[half..];
    forall x | x in TokenSet(a) ensures x in TokenSet(b) {
      var i :| 0 <= i < half && a[i] == x;
      var j := AgainBehind(w, p, i, half);
      assert b[j - half] == x;
    }
    forall x | x in TokenSet(b) ensures x in TokenSet(a) {
      var i :| 0 <= i < |b| && b[i] == x;
      var j := BackToFirstPeriod(w, p, half + i);
      assert a[j] == x;
    }
  }

  // ---- the check --------------------------------------------------------

  ghost predicate StandsAt<T>(w: seq<T>, i: nat, g: seq<T>) {
    i + |g| <= |w| && w[i..i + |g|] == g
  }

  /** A gram of `n` tokens that stands at two places of `w`, which may overlap. */
  ghost predicate StandsTwice<T>(w: seq<T>, n: nat, g: seq<T>) {
    |g| == n && exists i: nat, j: nat :: i < j && StandsAt(w, i, g) && StandsAt(w, j, g)
  }

  lemma StandsTwiceIff<T>(w: seq<T>, n: nat, g: seq<T>)
    ensures OccursTwice(w, n, g) <==> StandsTwice(w, n, g)
  {
    var k := Positions(w, n);
    if TwiceBefore(w, n, g, k) {
      var j :| 0 <= j < k && Gram(w, n, j) == g && OccursBefore(w, n, g, j);
      var i :| 0 <= i < j && Gram(w, n, i) == g;
      assert StandsAt(w, i, g) && StandsAt(w, j, g);
    }
    if StandsTwice(w, n, g) {
      var i: nat, j: nat :| i < j && StandsAt(w, i, g) && StandsAt(w, j, g);
      assert Gram(w, n, i) == g && Gram(w, n, j) == g;
      assert OccursBefore(w, n, g, j);
    }
  }

  /** The different tokens of a text. */
  ghost function Tokens<T>(s: seq<T>): set<T> {
    set x | x in s
  }

  /** Common tokens of the two halves of `w` over the larger of their token sets; none in a window of less than two. */
  ghost predicate IsSimilarity<T>(w: seq<T>, r: real) {
    if |w| < 2 then r == 0.0
    else
      var a, b := Tokens(w[..|w| / 2]), Tokens(w[|w| / 2..]);
      r * (if |a| < |b| then |b| else |a|) as real == |a * b| as real
  }

  lemma TokensAre<T>(s: seq<T>)
    ensures TokenSet(s) == Tokens(s)
  {
  }

  lemma Quotient(x: nat, m: nat)
    requires m > 0
    ensures x as real / m as real * m as real == x as real
  {
  }

  lemma SimilarityMeans<T>(w: seq<T>)
    ensures IsSimilarity(w, AdjacentSimilarity(w))
  {
    hide Tokens, TokenSet;
    if |w| >= 2 {
      var left, right := w[..|w| / 2], w[|w| / 2..];
      TokensAre(left);
      TokensAre(right);
      HasToken(left);
      var a, b := Tokens(left), Tokens(right);
      Quotient(|a * b|, Max(|a|, |b|));
    }
  }

  lemma HasToken<T>(s: seq<T>)
    requires s != []
    ensures |Tokens(s)| > 0
  {
    assert s[0] in Tokens(s);
  }

  /**
   The verdict on a text: its end of `windowTokens` is looked at; the rate is the grams
   that stand twice there over its positions; one signal at its threshold is enough.
   */
  method Check<T(==,!new)>(d: Detector, tokens: seq<T>)
    returns (v: Verdict, ghost w: seq<T>, ghost repeated: set<seq<T>>)
    ensures |tokens| < 2 * d.n ==> v == Verdict(false, 0.0, 0.0)
    ensures |tokens| >= 2 * d.n ==>
              && IsWindow(tokens, d.windowTokens, w)
              && (forall g :: g in repeated <==> StandsTwice(w, d.n, g))
              && (if |w| < d.n then v.ngramRate == 0.0
                  else v.ngramRate == |repeated| as real / (|w| - d.n + 1) as real)
              && IsSimilarity(w, v.adjacentSimilarity) && v.adjacentSimilarity == AdjacentSimilarity(w)
              && (v.repeated <==> v.ngramRate >= d.rateThreshold || v.adjacentSimilarity >= d.adjacencyThreshold)
  {
    hide StandsTwice, OccursTwice, IsSimilarity, AdjacentSimilarity;
    w, repeated := [], {};
    if |tokens| < 2 * d.n {
      return Verdict(false, 0.0, 0.0), [], {};
    }
    var looked := Window(tokens, d.windowTokens);
    w := looked;
    var rate;
    rate, repeated := NgramRepetitionRate(looked, d.n);
    forall g ensures g in repeated <==> StandsTwice(looked, d.n, g) { StandsTwiceIff(looked, d.n, g); }
    var sim := AdjacentSimilarity(looked);
    SimilarityMeans(looked);
    var flagged := false;
    if rate >= d.rateThreshold { flagged := true; }
    if sim >= d.adjacencyThreshold { flagged := true; }
    v := Verdict(flagged, rate, sim);
  }

  /** A window with a period of at most half its length is always flagged, by the halves. */
  method PeriodicIsFlagged<T(==,!new)>(d: Detector, tokens: seq<T>, p: nat) returns (v: Verdict)
    requires |tokens| >= 2 * d.n && d.adjacencyThreshold <= 1.0
    requires Periodic(Window(tokens, d.windowTokens), p) && p <= |Window(tokens, d.windowTokens)| / 2
    ensures v.repeated && v.adjacentSimilarity == 1.0
  {
    ghost var w, repeated;
    v, w, repeated := Check(d, tokens);
    PeriodicHalvesEqual(w, p);
    SimilarityOneIff(w);
  }

  /** Whatever came before, a text that ends in a window full of a period of at most half of it is flagged. */
  method LoopingTailIsFlagged<T(==,!new)>(d: Detector, front: seq<T>, tail: seq<T>, p: nat) returns (v: Verdict)
    requires |tail| >= d.windowTokens > 0 && |front + tail| >= 2 * d.n && d.adjacencyThreshold <= 1.0
    requires Periodic(tail, p) && p <= d.windowTokens / 2
    ensures v.repeated && v.adjacentSimilarity == 1.0
  {
    ghost var w := tail[|tail| - d.windowTokens..];
    WindowOfTail(front, tail, d.windowTokens);
    assert Periodic(w, p) by {
      forall i | 0 <= i && i + p < |w| ensures w[i] == w[i + p] {
        var at := |tail| - d.windowTokens + i;
        assert tail[at] == tail[at + p];
      }
    }
    v := PeriodicIsFlagged(d, front + tail, p);
  }

  lemma WindowOfTail<T>(front: seq<T>, tail: seq<T>, k: nat)
    requires |tail| >= k > 0
    ensures Window(front + tail, k) == tail[|tail| - k..]
  {
    assert (front + tail)[|front + tail| - k..] == tail[|tail| - k..];
    if k == |front + tail| { assert front == []; }
  }

  /** The n-gram signal alone misses tight loops: its rate is at most one half and at most p over the positions. */
  lemma RateMissesTightLoops<T(!new)>(w: seq<T>, n: nat, p: nat, r: set<seq<T>>)
    requires Periodic(w, p) && IsRepeatedSet(w, n, r) && |w| >= n
    ensures |r| as real / Positions(w, n) as real <= 0.5
    ensures |r| as real / Positions(w, n) as real <= p as real / Positions(w, n) as real
  {
    RepeatedAtMostHalf(w, n, r);
    RepeatedAtMostPeriod(w, n, p, r);
    FractionLe(|r|, p, Positions(w, n));
  }

  lemma FractionLe(x: nat, y: nat, m: nat)
    requires m > 0 && x <= y
    ensures x as real / m as real <= y as real / m as real
    ensures 2 * x <= m ==> x as real / m as real <= 0.5
  {
    var q, s := x as real / m as real, y as real / m as real;
    assert q * m as real == x as real && s * m as real == y as real;
    ScaleDown(q, s, m as real);
    if 2 * x <= m { ScaleDown(q, 0.5, m as real); }
  }

  lemma ScaleDown(q: real, s: real, m: real)
    requires m > 0.0 && q * m <= s * m
    ensures q <= s
  {
  }
}
