/**
 Which sessions a cleanup deletes: the oldest idle ones above the cap, and why running
 the plan again on what is left deletes nothing.
 */
module Cleanup {
  import opened Common

  type SessionId = string

  /** An unnamed session has the empty id; `created` is in milliseconds. */
  datatype Session = Session(id: SessionId, created: Option<real>)

  datatype Policy = Policy(enabled: bool, maxSessions: nat, minAgeSec: nat)

  datatype Candidate = Candidate(age: nat, id: SessionId)

  datatype CleanupResult = CleanupResult(
    scanned: nat,
    deleted: seq<SessionId>,
    skippedBusy: nat,
    skippedYoung: nat)

  function AgeSec(s: Session, now: real): nat {
    if s.created.None? then 0
    else
      var age := now - s.created.value / 1000.0;
      if age <= 0.0 then 0 else age.Floor
  }

  predicate Untouchable(s: Session, busy: set<SessionId>) {
    s.id == "" || s.id in busy
  }

  predicate TooYoung(p: Policy, s: Session, now: real) {
    AgeSec(s, now) < p.minAgeSec
  }

  predicate Deletable(p: Policy, s: Session, now: real, busy: set<SessionId>) {
    !Untouchable(s, busy) && !TooYoung(p, s, now)
  }

  function Candidates(p: Policy, ss: seq<Session>, now: real, busy: set<SessionId>): seq<Candidate> {
    if ss == [] then []
    else (if Deletable(p, ss[0], now, busy) then [Candidate(AgeSec(ss[0], now), ss[0].id)] else [])
         + Candidates(p, ss[1..], now, busy)
  }

  // ---- oldest first -----------------------------------------------------

  /** Places `c` before the first candidate that is not older, which keeps equal ages in their order. */
  function Insert(c: Candidate, sorted: seq<Candidate>): seq<Candidate> {
    if sorted == [] || sorted[0].age <= c.age then [c] + sorted
    else [sorted[0]] + Insert(c, sorted[1..])
  }

  function OldestFirst(cs: seq<Candidate>): seq<Candidate> {
    if cs == [] then [] else Insert(cs[0], OldestFirst(cs[1..]))
  }

  ghost predicate Descending(cs: seq<Candidate>) {
    forall i, j :: 0 <= i < j < |cs| ==> cs[i].age >= cs[j].age
  }

  function OfAge(cs: seq<Candidate>, age: nat): seq<Candidate> {
    if cs == [] then [] else (if cs[0].age == age then [cs[0]] else []) + OfAge(cs[1..], age)
  }

  lemma {:induction false} InsertOrdered(c: Candidate, s: seq<Candidate>)
    requires Descending(s)
    ensures Descending(Insert(c, s)) && |Insert(c, s)| == |s| + 1
    ensures forall x :: x in Insert(c, s) <==> x == c || x in s
  {
    if s != [] && s[0].age > c.age {
      InsertOrdered(c, s[1..]);
      var t := Insert(c, s[1..]);
      assert s == [s[0]] + s[1..];
      PrependOldest(s[0], t);
    }
  }

  lemma PrependOldest(c: Candidate, t: seq<Candidate>)
    requires Descending(t) && forall x :: x in t ==> x.age <= c.age
    ensures Descending([c] + t)
  {
  }

  lemma OfAgeCons(c: Candidate, t: seq<Candidate>, age: nat)
    ensures OfAge([c] + t, age) == if c.age == age then [c] + OfAge(t, age) else OfAge(t, age)
  {
    assert ([c] + t)[1..] == t;
    assert [] + OfAge(t, age) == OfAge(t, age);
  }

  lemma {:induction false} InsertKeepsOrder(c: Candidate, s: seq<Candidate>, age: nat)
    ensures OfAge(Insert(c, s), age) == if c.age == age then [c] + OfAge(s, age) else OfAge(s, age)
  {
    if s != [] && s[0].age > c.age {
      var t := Insert(c, s[1..]);
      OfAgeCons(s[0], t, age);
      OfAgeCons(s[0], s[1..], age);
      InsertKeepsOrder(c, s[1..], age);
      assert s == [s[0]] + s[1..];
      hide OfAge;
    } else {
      OfAgeCons(c, s, age);
    }
  }

  /** The sort is by age, oldest first, and keeps the candidates of one age as they were. */
  lemma {:induction false} OldestFirstSorts(cs: seq<Candidate>, age: nat)
    ensures Descending(OldestFirst(cs)) && |OldestFirst(cs)| == |cs|
    ensures forall x :: x in OldestFirst(cs) <==> x in cs
    ensures OfAge(OldestFirst(cs), age) == OfAge(cs, age)
  {
    if cs != [] {
      OldestFirstSorts(cs[1..], age);
      InsertOrdered(cs[0], OldestFirst(cs[1..]));
      InsertKeepsOrder(cs[0], OldestFirst(cs[1..]), age);
      OfAgeCons(cs[0], cs[1..], age);
      assert cs == [cs[0]] + cs[1..];
    }
  }

  // ---- the plan ---------------------------------------------------------

  function Excess(p: Policy, ss: seq<Session>): nat {
    if p.enabled && |ss| > p.maxSessions then |ss| - p.maxSessions else 0
  }

  function Min(a: nat, b: nat): nat {
    if a < b then a else b
  }

  /** The oldest candidates, as many as are above the cap. */
  function Chosen(p: Policy, ss: seq<Session>, now: real, busy: set<SessionId>): seq<Candidate> {
    var sorted := OldestFirst(Candidates(p, ss, now, busy));
    sorted[..Min(Excess(p, ss), |sorted|)]
  }

  function Ids(cs: seq<Candidate>): (ids: seq<SessionId>)
    ensures |ids| == |cs| && forall i :: 0 <= i < |cs| ==> ids[i] == cs[i].id
  {
    seq(|cs|, i requires 0 <= i < |cs| => cs[i].id)
  }

  function Doomed(p: Policy, ss: seq<Session>, now: real, busy: set<SessionId>): set<SessionId> {
    set id | id in Ids(Chosen(p, ss, now, busy))
  }

  /** What is left once every session with a planned id is gone. */
  function Survivors(ss: seq<Session>, gone: set<SessionId>): seq<Session> {
    if ss == [] then [] else (if ss[0].id in gone then [] else [ss[0]]) + Survivors(ss[1..], gone)
  }

  function After(p: Policy, ss: seq<Session>, now: real, busy: set<SessionId>): seq<Session> {
    Survivors(ss, Doomed(p, ss, now, busy))
  }

  function CountUntouchable(ss: seq<Session>, busy: set<SessionId>): nat {
    if ss == [] then 0 else (if Untouchable(ss[0], busy) then 1 else 0) + CountUntouchable(ss[1..], busy)
  }

  method PlanCleanup(p: Policy, ss: seq<Session>, now: real, busy: set<SessionId>) returns (r: CleanupResult)
    ensures r.deleted == Ids(Chosen(p, ss, now, busy))
    ensures r.scanned == if p.enabled then |ss| else 0
    ensures p.enabled && |ss| > p.maxSessions ==>
              && r.skippedBusy == CountUntouchable(ss, busy)
              && r.skippedBusy + r.skippedYoung + |Candidates(p, ss, now, busy)| == |ss|
    ensures Excess(p, ss) == 0 ==> r.skippedBusy == r.skippedYoung == 0
  {
    if !p.enabled || ss == [] { return CleanupResult(0, [], 0, 0); }
    if |ss| <= p.maxSessions { return CleanupResult(|ss|, [], 0, 0); }
    var candidates, skippedBusy, skippedYoung := Sift(p, ss, now, busy);
    var sorted := OldestFirst(candidates);
    var over := |ss| - p.maxSessions;
    r := CleanupResult(|ss|, Ids(sorted[..Min(over, |sorted|)]), skippedBusy, skippedYoung);
  }

  method Sift(p: Policy, ss: seq<Session>, now: real, busy: set<SessionId>)
    returns (candidates: seq<Candidate>, skippedBusy: nat, skippedYoung: nat)
    ensures candidates == Candidates(p, ss, now, busy)
    ensures skippedBusy == CountUntouchable(ss, busy)
    ensures skippedBusy + skippedYoung + |candidates| == |ss|
  {
    candidates, skippedBusy, skippedYoung := [], 0, 0;
    for i := 0 to |ss|
      invariant candidates == Candidates(p, ss[..i], now, busy)
      invariant skippedBusy == CountUntouchable(ss[..i], busy)
      invariant skippedBusy + skippedYoung + |candidates| == i
    {
      hide Candidates, CountUntouchable, AgeSec;
      var s := ss[i];
      TakeOneMore(ss, i);
      SiftOneMore(p, ss[..i], s, now, busy);
      if s.id == "" || s.id in busy {
        skippedBusy := skippedBusy + 1;
      } else if p.minAgeSec != 0 && AgeSec(s, now) < p.minAgeSec {
        skippedYoung := skippedYoung + 1;
      } else {
        candidates := candidates + [Candidate(AgeSec(s, now), s.id)];
      }
    }
    assert ss[..|ss|] == ss;
  }

  lemma {:induction false} SiftOneMore(p: Policy, ss: seq<Session>, s: Session, now: real, busy: set<SessionId>)
    ensures Candidates(p, ss + [s], now, busy) == Candidates(p, ss, now, busy)
              + if Deletable(p, s, now, busy) then [Candidate(AgeSec(s, now), s.id)] else []
    ensures CountUntouchable(ss + [s], busy) == CountUntouchable(ss, busy) + if Untouchable(s, busy) then 1 else 0
  {
    if ss == [] {
      assert ss + [s] == [s];
    } else {
      SiftOneMore(p, ss[1..], s, now, busy);
      ConsAppend(ss, s);
      hide AgeSec, Deletable, Untouchable;
    }
  }

  // ---- what is deleted --------------------------------------------------

  lemma {:induction false} CandidatesAreDeletable(p: Policy, ss: seq<Session>, now: real, busy: set<SessionId>)
    ensures forall c :: c in Candidates(p, ss, now, busy) <==>
              exists s :: s in ss && Deletable(p, s, now, busy) && c == Candidate(AgeSec(s, now), s.id)
  {
    if ss != [] {
      CandidatesAreDeletable(p, ss[1..], now, busy);
      assert forall s :: s in ss <==> s == ss[0] || s in ss[1..];
    }
  }

  lemma PrefixOldest(sorted: seq<Candidate>, k: nat)
    requires Descending(sorted) && k <= |sorted|
    ensures Descending(sorted[..k]) && forall c :: c in sorted[..k] ==> c in sorted
    ensures forall c, d :: c in sorted[..k] && d in sorted && d !in sorted[..k] ==> d.age <= c.age
  {
    forall c, d | c in sorted[..k] && d in sorted && d !in sorted[..k] ensures d.age <= c.age {
      var i :| 0 <= i < k && sorted[i] == c;
      var j :| 0 <= j < |sorted| && sorted[j] == d;
    }
  }

  /** The age in whole seconds; none without a creation time, or with one in the future. */
  lemma AgeMeans(s: Session, now: real)
    ensures var a := AgeSec(s, now);
            if s.created.Some? && now >= s.created.value / 1000.0
            then a as real <= now - s.created.value / 1000.0 < a as real + 1.0 else a == 0
  {
  }

  /** Named, idle, and old enough: an age of zero is enough when no minimum is set. */
  ghost predicate MayGo(p: Policy, s: Session, now: real, busy: set<SessionId>) {
    && s.id != "" && s.id !in busy
    && (p.minAgeSec == 0 || (s.created.Some? && now - s.created.value / 1000.0 >= p.minAgeSec as real))
  }

  lemma DeletableMeans(p: Policy, s: Session, now: real, busy: set<SessionId>)
    ensures Deletable(p, s, now, busy) <==> MayGo(p, s, now, busy)
  {
  }

  /** Where the candidates stand among the sessions: in order, and all that may go. */
  lemma {:induction false} CandidatesInOrder(p: Policy, ss: seq<Session>, now: real, busy: set<SessionId>) returns (at: seq<nat>)
    ensures var cs := Candidates(p, ss, now, busy);
            && |at| == |cs| && Increasing(at)
            && (forall i :: 0 <= i < |at| ==> at[i] < |ss| && cs[i] == Candidate(AgeSec(ss[at[i]], now), ss[at[i]].id))
            && (forall k :: 0 <= k < |ss| ==> (k in at <==> MayGo(p, ss[k], now, busy)))
    decreases |ss|
  {
    at := [];
    if ss != [] {
      var n := |ss| - 1;
      hide AgeSec, Candidates, Deletable, MayGo;
      var front := CandidatesInOrder(p, ss[..n], now, busy);
      SplitLast(ss);
      SiftOneMore(p, ss[..n], ss[n], now, busy);
      DeletableMeans(p, ss[n], now, busy);
      at := front + if Deletable(p, ss[n], now, busy) then [n] else [];
      forall k | 0 <= k < |ss| ensures k in at <==> MayGo(p, ss[k], now, busy) {
        if k < n {
          assert ss[..n][k] == ss[k];
        } else {
          assert forall i :: 0 <= i < |front| ==> front[i] < n;
          assert n !in front;
        }
      }
    } else {
      assert Candidates(p, ss, now, busy) == [];
    }
  }

  /** Never a busy, unnamed or too young session; as many as the excess allows; and none kept is older. */
  lemma PlanIsOldestDeletable(p: Policy, ss: seq<Session>, now: real, busy: set<SessionId>)
    ensures var chosen := Chosen(p, ss, now, busy);
            var cands := Candidates(p, ss, now, busy);
            && (forall c :: c in chosen ==>
                  exists s :: s in ss && MayGo(p, s, now, busy) && c == Candidate(AgeSec(s, now), s.id))
            && |chosen| == (if !p.enabled || |ss| <= p.maxSessions then 0
                            else if |ss| - p.maxSessions < |cands| then |ss| - p.maxSessions else |cands|)
            && Descending(chosen)
            && (forall c, d :: c in chosen && d in cands && d !in chosen ==> d.age <= c.age)
  {
    var cands := Candidates(p, ss, now, busy);
    CandidatesAreDeletable(p, ss, now, busy);
    OldestFirstSorts(cands, 0);
    var sorted := OldestFirst(cands);
    var k := Min(Excess(p, ss), |sorted|);
    forall s ensures Deletable(p, s, now, busy) <==> MayGo(p, s, now, busy) { DeletableMeans(p, s, now, busy); }
    hide Candidates, OldestFirst, Deletable, Descending, MayGo;
    PrefixOldest(sorted, k);
  }

  // ---- planning again ---------------------------------------------------

  /** How many of the candidates keep an id outside `gone`. */
  function Staying(cs: seq<Candidate>, gone: set<SessionId>): seq<Candidate> {
    if cs == [] then [] else (if cs[0].id in gone then [] else [cs[0]]) + Staying(cs[1..], gone)
  }

  lemma {:induction false} SurvivorCandidates(p: Policy, ss: seq<Session>, now: real, busy: set<SessionId>, gone: set<SessionId>)
    ensures Candidates(p, Survivors(ss, gone), now, busy) == Staying(Candidates(p, ss, now, busy), gone)
    ensures |Survivors(ss, gone)| + |Candidates(p, ss, now, busy)|
            <= |ss| + |Staying(Candidates(p, ss, now, busy), gone)|
  {
    if ss != [] {
      var rest := Survivors(ss[1..], gone);
      SurvivorCandidates(p, ss[1..], now, busy, gone);
      var cs := Candidates(p, ss[1..], now, busy);
      var c := Candidate(AgeSec(ss[0], now), ss[0].id);
      assert ([ss[0]] + rest)[1..] == rest && ([c] + cs)[1..] == cs;
      assert [] + rest == rest && [] + cs == cs && [] + Staying(cs, gone) == Staying(cs, gone);
    }
  }

  lemma {:induction false} InsertStaying(c: Candidate, s: seq<Candidate>, gone: set<SessionId>)
    ensures |Staying(Insert(c, s), gone)| == |Staying(s, gone)| + if c.id in gone then 0 else 1
  {
    if s == [] || s[0].age <= c.age {
      assert ([c] + s)[1..] == s;
    } else {
      InsertStaying(c, s[1..], gone);
      var t := Insert(c, s[1..]);
      assert ([s[0]] + t)[1..] == t;
    }
  }

  lemma {:induction false} SortStaying(cs: seq<Candidate>, gone: set<SessionId>)
    ensures |Staying(OldestFirst(cs), gone)| == |Staying(cs, gone)|
  {
    if cs != [] {
      SortStaying(cs[1..], gone);
      InsertStaying(cs[0], OldestFirst(cs[1..]), gone);
    }
  }

  lemma {:induction false} PrefixGone(cs: seq<Candidate>, k: nat, gone: set<SessionId>)
    requires k <= |cs| && forall i :: 0 <= i < k ==> cs[i].id in gone
    ensures |Staying(cs, gone)| <= |cs| - k
  {
    if cs != [] {
      PrefixGone(cs[1..], if k == 0 then 0 else k - 1, gone);
    }
  }

  /** Deleting the plan leaves no more sessions than the count says, and no more candidates. */
  lemma PlanRemoves(p: Policy, ss: seq<Session>, now: real, busy: set<SessionId>)
    ensures var left := After(p, ss, now, busy);
            var k := |Chosen(p, ss, now, busy)|;
            && |left| + k <= |ss|
            && |Candidates(p, left, now, busy)| + k <= |Candidates(p, ss, now, busy)|
  {
    var cands := Candidates(p, ss, now, busy);
    var sorted := OldestFirst(cands);
    var chosen := Chosen(p, ss, now, busy);
    var gone := Doomed(p, ss, now, busy);
    OldestFirstSorts(cands, 0);
    forall i | 0 <= i < |chosen| ensures sorted[i].id in gone {
      assert Ids(chosen)[i] == sorted[i].id;
    }
    PrefixGone(sorted, |chosen|, gone);
    SortStaying(cands, gone);
    SurvivorCandidates(p, ss, now, busy, gone);
  }

  /** Idempotent: a second plan over the survivors, same clock and busy set, deletes nothing. */
  lemma PlanIsIdempotent(p: Policy, ss: seq<Session>, now: real, busy: set<SessionId>)
    ensures Chosen(p, After(p, ss, now, busy), now, busy) == []
  {
    var left := After(p, ss, now, busy);
    PlanRemoves(p, ss, now, busy);
    OldestFirstSorts(Candidates(p, ss, now, busy), 0);
    OldestFirstSorts(Candidates(p, left, now, busy), 0);
  }

  // ---- the floor --------------------------------------------------------

  /** No two named sessions share an id. */
  ghost predicate DistinctIds(ss: seq<Session>) {
    forall i, j :: 0 <= i < j < |ss| && ss[i].id == ss[j].id ==> ss[i].id == ""
  }

  lemma {:induction false} SurvivorsIgnore(ss: seq<Session>, gone: set<SessionId>, id: SessionId)
    requires forall s :: s in ss ==> s.id != id
    ensures Survivors(ss, gone) == Survivors(ss, gone - {id})
  {
    if ss != [] {
      assert ss[0] in ss;
      SurvivorsIgnore(ss[1..], gone, id);
    }
  }

  lemma {:induction false} DistinctLoseOneEach(ss: seq<Session>, gone: set<SessionId>)
    requires DistinctIds(ss) && "" !in gone
    ensures |ss| <= |Survivors(ss, gone)| + |gone|
  {
    if ss != [] {
      var s := ss[0];
      if s.id in gone {
        forall t | t in ss[1..] ensures t.id != s.id {
          var i :| 0 <= i < |ss[1..]| && ss[1..][i] == t;
          assert ss[i + 1] == t;
        }
        SurvivorsIgnore(ss[1..], gone, s.id);
        DistinctLoseOneEach(ss[1..], gone - {s.id});
      } else {
        DistinctLoseOneEach(ss[1..], gone);
      }
    }
  }

  lemma {:induction false} FewIds(ids: seq<SessionId>)
    ensures |(set id | id in ids)| <= |ids|
  {
    if ids == [] {
      assert (set id | id in ids) == {};
    } else {
      FewIds(ids[1..]);
      assert (set id | id in ids) == {ids[0]} + (set id | id in ids[1..]);
    }
  }

  lemma NeverBelowCap(p: Policy, ss: seq<Session>, now: real, busy: set<SessionId>)
    requires DistinctIds(ss) && p.enabled && |ss| >= p.maxSessions
    ensures |After(p, ss, now, busy)| >= p.maxSessions
    ensures |After(p, ss, now, busy)| == |ss| - |Chosen(p, ss, now, busy)|
  {
    var chosen := Chosen(p, ss, now, busy);
    PlanIsOldestDeletable(p, ss, now, busy);
    forall i | 0 <= i < |chosen| ensures Ids(chosen)[i] != "" {
      assert chosen[i] in chosen;
    }
    DistinctLoseOneEach(ss, Doomed(p, ss, now, busy));
    FewIds(Ids(chosen));
    PlanRemoves(p, ss, now, busy);
  }

  lemma {:induction false} TwoGone(ss: seq<Session>, gone: set<SessionId>, i: nat, j: nat)
    requires i < j < |ss| && ss[i].id in gone && ss[j].id in gone
    ensures |Survivors(ss, gone)| + 2 <= |ss|
  {
    AtMost(ss[1..], gone);
    if i > 0 {
      TwoGone(ss[1..], gone, i - 1, j - 1);
    } else {
      OneGone(ss[1..], gone, j - 1);
    }
  }

  lemma {:induction false} OneGone(ss: seq<Session>, gone: set<SessionId>, j: nat)
    requires j < |ss| && ss[j].id in gone
    ensures |Survivors(ss, gone)| + 1 <= |ss|
  {
    AtMost(ss[1..], gone);
    if j > 0 { OneGone(ss[1..], gone, j - 1); }
  }

  lemma {:induction false} AtMost(ss: seq<Session>, gone: set<SessionId>)
    ensures |Survivors(ss, gone)| <= |ss|
  {
    if ss != [] { AtMost(ss[1..], gone); }
  }

  /** A shared id makes some plan cut below the cap: one deletion removes both sessions. */
  lemma SharedIdCutsBelowCap(ss: seq<Session>, i: nat, j: nat, now: real)
    requires i < j < |ss| && ss[i].id == ss[j].id != ""
    ensures var p := Policy(true, |ss| - 1, 0);
            var busy := (set s | s in ss && s.id != ss[i].id :: s.id);
            |After(p, ss, now, busy)| < p.maxSessions
  {
    var p := Policy(true, |ss| - 1, 0);
    var busy := set s | s in ss && s.id != ss[i].id :: s.id;
    var chosen := Chosen(p, ss, now, busy);
    PlanIsOldestDeletable(p, ss, now, busy);
    CandidatesAreDeletable(p, ss, now, busy);
    assert ss[i] in ss && Deletable(p, ss[i], now, busy);
    assert Candidate(AgeSec(ss[i], now), ss[i].id) in Candidates(p, ss, now, busy);
    assert chosen[0] in chosen;
    assert Ids(chosen)[0] == ss[i].id;
    TwoGone(ss, Doomed(p, ss, now, busy), i, j);
  }

  /** The floor holds under every policy, clock and busy set exactly when named sessions have distinct ids. */
  lemma FloorIff(ss: seq<Session>, now: real)
    ensures DistinctIds(ss) <==>
            forall p: Policy, busy: set<SessionId> {:trigger After(p, ss, now, busy)} ::
              p.enabled && |ss| >= p.maxSessions ==> |After(p, ss, now, busy)| >= p.maxSessions
  {
    if DistinctIds(ss) {
      forall p: Policy, busy: set<SessionId> | p.enabled && |ss| >= p.maxSessions
        ensures |After(p, ss, now, busy)| >= p.maxSessions
      {
        NeverBelowCap(p, ss, now, busy);
      }
    } else {
      var i, j :| 0 <= i < j < |ss| && ss[i].id == ss[j].id && ss[i].id != "";
      SharedIdCutsBelowCap(ss, i, j, now);
    }
  }
}
