/** The interrogation loop detector over (inquiry text, report text) rounds. */
module Handoff {

  type Round = (string, string)

  /** How many rounds at the end ask the same as the last one. */
  function TailRun(rounds: seq<Round>): (run: nat)
    requires rounds != []
    ensures 1 <= run <= |rounds|
    ensures forall i :: |rounds| - run <= i < |rounds| ==> rounds[i].0 == rounds[|rounds| - 1].0
    ensures run < |rounds| ==> rounds[|rounds| - run - 1].0 != rounds[|rounds| - 1].0
  {
    RunFrom(rounds, 1)
  }

  function RunFrom(rounds: seq<Round>, run: nat): (r: nat)
    requires 1 <= run <= |rounds|
    requires forall i :: |rounds| - run <= i < |rounds| ==> rounds[i].0 == rounds[|rounds| - 1].0
    ensures run <= r <= |rounds|
    ensures forall i :: |rounds| - r <= i < |rounds| ==> rounds[i].0 == rounds[|rounds| - 1].0
    ensures r < |rounds| ==> rounds[|rounds| - r - 1].0 != rounds[|rounds| - 1].0
    decreases |rounds| - run
  {
    if run < |rounds| && rounds[|rounds| - run - 1].0 == rounds[|rounds| - 1].0 then RunFrom(rounds, run + 1) else run
  }

  /** A loop: the closing run of equal inquiries is long enough and its reports never changed. */
  predicate DetectLoop(rounds: seq<Round>, maxIdentical: nat) {
    && |rounds| >= 2
    && TailRun(rounds) >= maxIdentical
    && forall i :: |rounds| - TailRun(rounds) <= i < |rounds| ==> rounds[i].1 == rounds[|rounds| - 1].1
  }

  method FindLoop(rounds: seq<Round>, maxIdentical: nat) returns (looping: bool)
    ensures looping == DetectLoop(rounds, maxIdentical)
  {
    if |rounds| < 2 { return false; }
    var last := rounds[|rounds| - 1];
    var identical := 1;
    while identical < |rounds| && rounds[|rounds| - identical - 1].0 == last.0
      invariant 1 <= identical <= |rounds|
      invariant forall i :: |rounds| - identical <= i < |rounds| ==> rounds[i].0 == last.0
      invariant RunFrom(rounds, identical) == TailRun(rounds)
      decreases |rounds| - identical
    {
      identical := identical + 1;
    }
    if identical >= maxIdentical {
      for i := |rounds| - identical to |rounds|
        invariant forall k :: |rounds| - identical <= k < i ==> rounds[k].1 == last.1
      {
        if rounds[i].1 != last.1 { return false; }
      }
      return true;
    }
    looping := false;
  }

  /** The last `n` rounds are all the same round. */
  ghost predicate Stalled(rounds: seq<Round>, n: nat) {
    n <= |rounds| && forall i :: |rounds| - n <= i < |rounds| ==> rounds[i] == rounds[|rounds| - 1]
  }

  /**
   The documented meaning (the inquiry repeats `n` times with no change in the
   report) is met exactly when no round of the longer closing run reported
   something else.
   */
  lemma LoopMeansStalled(rounds: seq<Round>, n: nat)
    requires n >= 2
    ensures DetectLoop(rounds, n) <==>
            Stalled(rounds, n) && (rounds != [] ==> Stalled(rounds, TailRun(rounds)))
  {
    if rounds != [] {
      var run := TailRun(rounds);
      var last := rounds[|rounds| - 1];
      assert run < |rounds| ==> rounds[|rounds| - run - 1] != last;
      if DetectLoop(rounds, n) {
        forall i | |rounds| - run <= i < |rounds| ensures rounds[i] == last {
          assert rounds[i].0 == last.0 && rounds[i].1 == last.1;
        }
      }
    }
  }

  /** An early different report hides a loop: two identical rounds, limit two, nothing found. */
  lemma EarlyChangeHidesLoop()
    ensures var rounds := [("redo", "a"), ("redo", "b"), ("redo", "b")];
            Stalled(rounds, 2) && !DetectLoop(rounds, 2)
  {
    var rounds := [("redo", "a"), ("redo", "b"), ("redo", "b")];
    assert TailRun(rounds) == 3;
    assert rounds[0].1 != rounds[2].1;
  }
}
