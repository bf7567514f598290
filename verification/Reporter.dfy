/**
 The report journal and its rollups: counters kept up to date one record at a time equal
 the counters of the journal grouped by project and workflow.
 */
module Reporter {
  import opened Common

  /** A record as the journal gives it back; a loaded line may lack any field, and no workflow reads as "". */
  datatype Record = Record(
    ts: Option<real>,
    project: Option<string>,
    workflow: string,
    kind: Option<string>,
    node: Option<string>,
    phase: Option<string>,
    outcome: Option<string>,
    verdict: string)

  /** A journal line by what parsing makes of it; `Foreign` is JSON that is not an object. */
  datatype Line = Blank | Malformed | Foreign | Entry(record: Record)

  type Key = (Option<string>, string)

  function KeyOf(r: Record): Key {
    (r.project, r.workflow)
  }

  datatype Counters = Counters(
    startedAt: Option<real>,
    finishedAt: Option<real>,
    outcome: Option<string>,
    currentNode: Option<string>,
    currentPhase: Option<string>,
    nodesEntered: nat,
    nodesDone: nat,
    verdicts: map<string, nat>,
    kinds: map<Option<string>, nat>)

  const ZERO := Counters(None, None, None, None, None, 0, 0, map[], map[])

  function Bump<K>(m: map<K, nat>, k: K): map<K, nat> {
    m[k := (if k in m then m[k] else 0) + 1]
  }

  function Applied(c: Counters, r: Record): Counters {
    var c1 := c.(startedAt := if c.startedAt.None? then r.ts else c.startedAt, kinds := Bump(c.kinds, r.kind));
    if r.kind == Some("node_enter") then
      c1.(nodesEntered := c.nodesEntered + 1, currentNode := r.node, currentPhase := r.phase)
    else if r.kind == Some("node_done") then c1.(nodesDone := c.nodesDone + 1)
    else if r.kind == Some("reviewer_verdict") then
      (if r.verdict == "" then c1 else c1.(verdicts := Bump(c.verdicts, r.verdict)))
    else if r.kind == Some("outcome") then c1.(outcome := r.outcome, finishedAt := r.ts)
    else c1
  }

  type Rollups = map<Key, Counters>

  function Updated(g: Rollups, r: Record): Rollups {
    g[KeyOf(r) := Applied(if KeyOf(r) in g then g[KeyOf(r)] else ZERO, r)]
  }

  /** The counters after a list of records. */
  function Grouped(rs: seq<Record>): Rollups {
    if rs == [] then map[] else Updated(Grouped(rs[..|rs| - 1]), rs[|rs| - 1])
  }

  // ---- the journal ------------------------------------------------------

  function Records(lines: seq<Line>): seq<Record> {
    if lines == [] then []
    else
      var last := lines[|lines| - 1];
      Records(lines[..|lines| - 1]) + if last.Entry? then [last.record] else []
  }

  predicate Clean(lines: seq<Line>) {
    Foreign !in lines
  }

  function BeforeForeign(lines: seq<Line>): (front: seq<Line>)
    ensures front <= lines && Clean(front)
    ensures !Clean(lines) ==> |front| < |lines| && lines[|front|] == Foreign
    ensures Clean(lines) ==> front == lines
  {
    if lines == [] || lines[0] == Foreign then [] else [lines[0]] + BeforeForeign(lines[1..])
  }

  ghost predicate AllEntries(lines: seq<Line>) {
    forall l :: l in lines ==> l.Entry?
  }

  function TooOld(r: Record, maxAge: Option<real>, now: real): bool {
    maxAge.Some? && now - (if r.ts.Some? then r.ts.value else 0.0) > maxAge.value
  }

  /** The entries young enough to stay, in order. */
  function Young(lines: seq<Line>, maxAge: Option<real>, now: real): seq<Line> {
    if lines == [] then []
    else
      var last := lines[|lines| - 1];
      Young(lines[..|lines| - 1], maxAge, now)
      + if last.Entry? && !TooOld(last.record, maxAge, now) then [last] else []
  }

  /** Lines that are dropped by their own content: malformed, or too old. */
  function Dropped(lines: seq<Line>, maxAge: Option<real>, now: real): nat {
    if lines == [] then 0
    else
      var last := lines[|lines| - 1];
      Dropped(lines[..|lines| - 1], maxAge, now)
      + if last.Malformed? || (last.Entry? && TooOld(last.record, maxAge, now)) then 1 else 0
  }

  function Overflow(count: nat, maxRecords: Option<int>): nat {
    if maxRecords.Some? && count > maxRecords.value then count - maxRecords.value else 0
  }

  /** The last `maxRecords` of the young entries. */
  function Tail(young: seq<Line>, maxRecords: Option<int>): seq<Line> {
    var k := Overflow(|young|, maxRecords);
    if k > |young| then [] else young[k..]
  }

  function Kept(lines: seq<Line>, maxAge: Option<real>, maxRecords: Option<int>, now: real): seq<Line> {
    Tail(Young(lines, maxAge, now), maxRecords)
  }

  function Removed(lines: seq<Line>, maxAge: Option<real>, maxRecords: Option<int>, now: real): nat {
    Dropped(lines, maxAge, now) + Overflow(|Young(lines, maxAge, now)|, maxRecords)
  }

  // ---- the bus ----------------------------------------------------------

  datatype Failure = NoJournal | NotAnObject

  datatype Bus = Bus(journal: Option<seq<Line>>, open: bool, rollups: Rollups)

  function Ingested(b: Bus, r: Record): Bus {
    b.(rollups := Updated(b.rollups, r),
       journal := if b.open && b.journal.Some? then Some(b.journal.value + [Entry(r)]) else b.journal)
  }

  function Loaded(b: Bus): (Bus, Result<nat, Failure>) {
    if b.journal.None? then (b, Ok(0))
    else
      var rs := Records(BeforeForeign(b.journal.value));
      (b.(rollups := Grouped(rs)), if Clean(b.journal.value) then Ok(|rs|) else Err(NotAnObject))
  }

  function Retained(b: Bus, maxAge: Option<real>, maxRecords: Option<int>, now: real): (Bus, Result<nat, Failure>) {
    if b.journal.None? then (b, Err(NoJournal))
    else if !Clean(b.journal.value) then (b, Err(NotAnObject))
    else
      var kept := Kept(b.journal.value, maxAge, maxRecords, now);
      (b.(journal := Some(kept), rollups := Grouped(Records(kept))),
       Ok(Removed(b.journal.value, maxAge, maxRecords, now)))
  }

  function Closed(b: Bus): Bus {
    b.(open := false)
  }

  class Rollup {
    var startedAt: Option<real>
    var finishedAt: Option<real>
    var outcome: Option<string>
    var currentNode: Option<string>
    var currentPhase: Option<string>
    var nodesEntered: nat
    var nodesDone: nat
    var verdicts: map<string, nat>
    var kinds: map<Option<string>, nat>

    ghost function View(): Counters
      reads this
    {
      Counters(startedAt, finishedAt, outcome, currentNode, currentPhase, nodesEntered, nodesDone, verdicts, kinds)
    }

    constructor ()
      ensures View() == ZERO
    {
      startedAt, finishedAt, outcome := None, None, None;
      currentNode, currentPhase, nodesEntered, nodesDone := None, None, 0, 0;
      verdicts, kinds := map[], map[];
    }

    method Apply(r: Record)
      modifies this
      ensures View() == Applied(old(View()), r)
    {
      if startedAt.None? { startedAt := r.ts; }
      kinds := Bump(kinds, r.kind);
      if r.kind == Some("node_enter") {
        nodesEntered := nodesEntered + 1;
        currentNode := r.node;
        currentPhase := r.phase;
      } else if r.kind == Some("node_done") {
        nodesDone := nodesDone + 1;
      } else if r.kind == Some("reviewer_verdict") {
        if r.verdict != "" { verdicts := Bump(verdicts, r.verdict); }
      } else if r.kind == Some("outcome") {
        outcome := r.outcome;
        finishedAt := r.ts;
      }
    }
  }

  class ReportBus {
    var journal: Option<seq<Line>>
    var open: bool
    var rollups: map<Key, Rollup>
    ghost var cells: set<Rollup>

    /** Every rollup is one of this bus's cells, and no two keys share one. */
    ghost predicate Valid()
      reads this`rollups, this`cells
    {
      && (forall k :: k in rollups ==> rollups[k] in cells)
      && (forall j, k :: j in rollups && k in rollups && j != k ==> rollups[j] != rollups[k])
    }

    ghost function Rolled(): Rollups
      requires Valid()
      reads this`rollups, this`cells, cells
    {
      map k | k in rollups :: rollups[k].View()
    }

    ghost function View(): Bus
      requires Valid()
      reads this, cells
    {
      Bus(journal, open, Rolled())
    }

    constructor (existing: Option<seq<Line>>)
      ensures Valid() && View() == Bus(existing, existing.Some?, map[]) && cells == {}
    {
      journal, open, rollups, cells := existing, existing.Some?, map[], {};
    }

    /** A key gets its rollup on first use. */
    method EnsureRollup(key: Key)
      requires Valid()
      modifies this`rollups, this`cells
      ensures Valid() && key in rollups
      ensures Rolled() == if key in old(Rolled()) then old(Rolled()) else old(Rolled())[key := ZERO]
      ensures fresh(cells - old(cells))
    {
      if key in rollups { return; }
      var rollup := new Rollup();
      rollups, cells := rollups[key := rollup], cells + {rollup};
      MapUpdated(old(Rolled()), Rolled(), key, ZERO);
    }

    method ApplyTo(key: Key, r: Record)
      requires Valid() && key in rollups
      modifies cells
      ensures Valid() && Rolled() == old(Rolled())[key := Applied(old(Rolled())[key], r)]
    {
      hide Applied;
      rollups[key].Apply(r);
      MapUpdated(old(Rolled()), Rolled(), key, Applied(old(Rolled())[key], r));
    }

    method ApplyRecord(r: Record)
      requires Valid()
      modifies this`rollups, this`cells, cells
      ensures Valid() && Rolled() == Updated(old(Rolled()), r)
      ensures fresh(cells - old(cells))
    {
      hide Applied, Rolled;
      EnsureRollup(KeyOf(r));
      ApplyTo(KeyOf(r), r);
    }

    method Ingest(r: Record)
      requires Valid()
      modifies this, cells
      ensures Valid() && View() == Ingested(old(View()), r)
      ensures fresh(cells - old(cells))
    {
      hide Updated, Rolled;
      ApplyRecord(r);
      if open && journal.Some? { journal := Some(journal.value + [Entry(r)]); }
    }

    method Load() returns (n: Result<nat, Failure>)
      requires Valid()
      modifies this`rollups, this`cells
      ensures Valid() && View() == Loaded(old(View())).0
      ensures n == Loaded(old(View())).1
      ensures fresh(cells - old(cells))
    {
      hide Records, Grouped, Updated, Applied, Clean, BeforeForeign, AllEntries, Young, Dropped;
      if journal.None? { return Ok(0); }
      StartEmpty();
      rollups, cells := map[], {};
      var count := 0;
      var lines := journal.value;
      for i := 0 to |lines|
        invariant journal == Some(lines) && open == old(open)
        invariant Valid() && fresh(cells)
        invariant BeforeForeign(lines[..i]) == lines[..i]
        invariant Rolled() == Grouped(Records(lines[..i])) && count == |Records(lines[..i])|
      {
        TakeOneMore(lines, i);
        if lines[i] == Foreign {
          BeforeForeignAt(lines, i);
          return Err(NotAnObject);
        }
        EntriesSnoc(lines[..i], lines[i]);
        if lines[i].Entry? {
          ApplyRecord(lines[i].record);
          count := count + 1;
        }
      }
      assert lines[..|lines|] == lines;
      n := Ok(count);
    }

    method Retain(maxAge: Option<real>, maxRecords: Option<int>, now: real) returns (n: Result<nat, Failure>)
      requires Valid()
      modifies this`rollups, this`cells, this`journal
      ensures Valid() && View() == Retained(old(View()), maxAge, maxRecords, now).0
      ensures n == Retained(old(View()), maxAge, maxRecords, now).1
      ensures fresh(cells - old(cells))
    {
      hide AllEntries, Clean, Young, Dropped, Grouped, Records, Tail, Overflow, TooOld, Applied, Updated;
      if journal.None? { return Err(NoJournal); }
      var young, removed, bad := Sift(journal.value, maxAge, now);
      if bad { return Err(NotAnObject); }
      var overflow := Prune(young, maxRecords);
      n := Ok(removed + overflow);
    }

    method Prune(young: seq<Line>, maxRecords: Option<int>) returns (overflow: nat)
      requires AllEntries(young)
      modifies this`rollups, this`cells, this`journal
      ensures Valid() && fresh(cells)
      ensures View() == Bus(Some(Tail(young, maxRecords)), old(open), Grouped(Records(Tail(young, maxRecords))))
      ensures overflow == Overflow(|young|, maxRecords)
    {
      var kept;
      kept, overflow := Trim(young, maxRecords);
      Rewrite(kept);
    }

    method Trim(young: seq<Line>, maxRecords: Option<int>) returns (kept: seq<Line>, overflow: nat)
      ensures kept == Tail(young, maxRecords) && overflow == Overflow(|young|, maxRecords)
      ensures AllEntries(young) ==> AllEntries(kept)
    {
      kept, overflow := young, 0;
      if maxRecords.Some? && |young| > maxRecords.value {
        overflow := |young| - maxRecords.value;
        kept := if overflow > |young| then [] else young[overflow..];
      }
    }

    method Sift(lines: seq<Line>, maxAge: Option<real>, now: real) returns (kept: seq<Line>, removed: nat, bad: bool)
      ensures bad == !Clean(lines)
      ensures !bad ==> kept == Young(lines, maxAge, now) && removed == Dropped(lines, maxAge, now) && AllEntries(kept)
    {
      kept, removed := [], 0;
      for i := 0 to |lines|
        invariant Clean(lines[..i])
        invariant kept == Young(lines[..i], maxAge, now) && removed == Dropped(lines[..i], maxAge, now)
      {
        TakeOneMore(lines, i);
        assert lines[..i + 1][..i] == lines[..i];
        if lines[i] == Foreign {
          assert lines[i] in lines;
          return kept, removed, true;
        }
        if lines[i].Malformed? {
          removed := removed + 1;
        } else if lines[i].Entry? {
          if TooOld(lines[i].record, maxAge, now) {
            removed := removed + 1;
          } else {
            kept := kept + [lines[i]];
          }
        }
      }
      assert lines[..|lines|] == lines;
      YoungAreEntries(lines, maxAge, now);
      bad := false;
    }

    method Rewrite(kept: seq<Line>)
      requires AllEntries(kept)
      modifies this`rollups, this`cells, this`journal
      ensures Valid() && View() == Bus(Some(kept), old(open), Grouped(Records(kept))) && fresh(cells)
    {
      hide Records, Grouped, Updated, Applied, Clean, BeforeForeign, Young, Dropped;
      journal := Some(kept);
      StartEmpty();
      rollups, cells := map[], {};
      for i := 0 to |kept|
        invariant journal == Some(kept) && open == old(open)
        invariant Valid() && fresh(cells)
        invariant Rolled() == Grouped(Records(kept[..i]))
      {
        TakeOneMore(kept, i);
        assert kept[i] in kept;
        EntriesSnoc(kept[..i], kept[i]);
        ApplyRecord(kept[i].record);
      }
      assert kept[..|kept|] == kept;
    }

    method Close()
      requires Valid()
      modifies this`open
      ensures Valid() && View() == Closed(old(View()))
    {
      open := false;
    }
  }

  lemma StartEmpty()
    ensures Records([]) == [] && Grouped([]) == map[] && BeforeForeign([]) == []
  {
  }

  lemma MapUpdated<K, V>(m: map<K, V>, n: map<K, V>, k: K, v: V)
    requires n.Keys == m.Keys + {k} && n[k] == v
    requires forall j :: j in m && j != k ==> n[j] == m[j]
    ensures n == m[k := v]
  {
  }

  lemma BeforeForeignAt(lines: seq<Line>, i: nat)
    requires i < |lines| && lines[i] == Foreign && Clean(lines[..i])
    ensures BeforeForeign(lines) == lines[..i] && !Clean(lines)
  {
    var front := BeforeForeign(lines);
    assert forall j :: 0 <= j < i ==> lines[..i][j] == lines[j];
    assert lines[i] in lines && forall j :: 0 <= j < |front| ==> front[j] == lines[j];
  }

  lemma EntriesSnoc(lines: seq<Line>, last: Line)
    ensures Records(lines + [last]) == if last.Entry? then Records(lines) + [last.record] else Records(lines)
    ensures last.Entry? ==> Grouped(Records(lines + [last])) == Updated(Grouped(Records(lines)), last.record)
    ensures last != Foreign && BeforeForeign(lines) == lines ==> BeforeForeign(lines + [last]) == lines + [last]
  {
    assert (lines + [last])[..|lines|] == lines;
    if last.Entry? {
      var rs := Records(lines);
      assert (rs + [last.record])[..|rs|] == rs;
    }
    if last != Foreign && Clean(lines) { assert Clean(lines + [last]); }
    if !Clean(lines) { assert |BeforeForeign(lines)| < |lines|; }
  }

  // ---- grouping ---------------------------------------------------------

  function GroupOf(rs: seq<Record>, k: Key): seq<Record> {
    if rs == [] then []
    else
      var last := rs[|rs| - 1];
      GroupOf(rs[..|rs| - 1], k) + if (last.project, last.workflow) == k then [last] else []
  }

  function Folded(rs: seq<Record>): Counters {
    if rs == [] then ZERO else Applied(Folded(rs[..|rs| - 1]), rs[|rs| - 1])
  }

  /** Counting as the records come equals grouping them by key and folding each group. */
  lemma {:induction false} GroupedIsFoldOfGroups(rs: seq<Record>, k: Key)
    ensures k in Grouped(rs) <==> GroupOf(rs, k) != []
    ensures k in Grouped(rs) ==> Grouped(rs)[k] == Folded(GroupOf(rs, k))
  {
    if rs != [] {
      var front, last := rs[..|rs| - 1], rs[|rs| - 1];
      GroupedIsFoldOfGroups(front, k);
      var own := GroupOf(front, k);
      assert (own + [last])[..|own|] == own;
      assert own + [] == own;
      hide Applied;
    }
  }

  function CountKind(rs: seq<Record>, kind: Option<string>): nat {
    if rs == [] then 0
    else CountKind(rs[..|rs| - 1], kind) + if rs[|rs| - 1].kind == kind then 1 else 0
  }

  function CountVerdict(rs: seq<Record>, v: string): nat {
    if rs == [] then 0
    else
      var last := rs[|rs| - 1];
      CountVerdict(rs[..|rs| - 1], v) + if last.kind == Some("reviewer_verdict") && last.verdict == v then 1 else 0
  }

  /** The last record of a kind, if there is one. */
  function LastOf(rs: seq<Record>, kind: string): Option<Record> {
    if rs == [] then None
    else if rs[|rs| - 1].kind == Some(kind) then Some(rs[|rs| - 1])
    else LastOf(rs[..|rs| - 1], kind)
  }

  function FirstTime(rs: seq<Record>): Option<real> {
    if rs == [] then None
    else
      var before := FirstTime(rs[..|rs| - 1]);
      if before.Some? then before else rs[|rs| - 1].ts
  }

  function At<K(==)>(m: map<K, nat>, k: K): nat {
    if k in m then m[k] else 0
  }

  ghost predicate CountsMatch(c: Counters, rs: seq<Record>) {
    && (forall kind :: At(c.kinds, kind) == CountKind(rs, kind))
    && (forall v :: v != "" ==> At(c.verdicts, v) == CountVerdict(rs, v))
    && c.nodesEntered == CountKind(rs, Some("node_enter"))
    && c.nodesDone == CountKind(rs, Some("node_done"))
  }

  ghost predicate NodeMatches(c: Counters, rs: seq<Record>) {
    match LastOf(rs, "node_enter")
    case None => c.currentNode.None? && c.currentPhase.None?
    case Some(r) => c.currentNode == r.node && c.currentPhase == r.phase
  }

  ghost predicate OutcomeMatches(c: Counters, rs: seq<Record>) {
    match LastOf(rs, "outcome")
    case None => c.outcome.None? && c.finishedAt.None?
    case Some(r) => c.outcome == r.outcome && c.finishedAt == r.ts
  }

  ghost predicate LatestMatch(c: Counters, rs: seq<Record>) {
    c.startedAt == FirstTime(rs) && NodeMatches(c, rs) && OutcomeMatches(c, rs)
  }

  lemma KindsAfter(c: Counters, rs: seq<Record>, r: Record)
    requires forall kind :: At(c.kinds, kind) == CountKind(rs, kind)
    ensures forall kind :: At(Applied(c, r).kinds, kind) == CountKind(rs + [r], kind)
  {
    assert (rs + [r])[..|rs|] == rs;
    assert Applied(c, r).kinds == Bump(c.kinds, r.kind);
  }

  lemma VerdictsAfter(c: Counters, rs: seq<Record>, r: Record)
    requires forall v :: v != "" ==> At(c.verdicts, v) == CountVerdict(rs, v)
    ensures forall v :: v != "" ==> At(Applied(c, r).verdicts, v) == CountVerdict(rs + [r], v)
  {
    assert (rs + [r])[..|rs|] == rs;
  }

  lemma AppliedCounts(c: Counters, rs: seq<Record>, r: Record)
    requires CountsMatch(c, rs)
    ensures CountsMatch(Applied(c, r), rs + [r])
  {
    hide At, CountVerdict;
    KindsAfter(c, rs, r);
    VerdictsAfter(c, rs, r);
    assert (rs + [r])[..|rs|] == rs;
  }

  lemma AppliedNode(c: Counters, rs: seq<Record>, r: Record)
    requires NodeMatches(c, rs)
    ensures NodeMatches(Applied(c, r), rs + [r])
  {
    assert (rs + [r])[..|rs|] == rs;
  }

  lemma AppliedOutcome(c: Counters, rs: seq<Record>, r: Record)
    requires OutcomeMatches(c, rs)
    ensures OutcomeMatches(Applied(c, r), rs + [r])
  {
    assert (rs + [r])[..|rs|] == rs;
  }

  lemma AppliedStart(c: Counters, rs: seq<Record>, r: Record)
    requires c.startedAt == FirstTime(rs)
    ensures Applied(c, r).startedAt == FirstTime(rs + [r])
  {
    assert (rs + [r])[..|rs|] == rs;
  }

  /** What a group's counters mean: counts of its records, its first time, and its latest node and outcome. */
  lemma {:induction false} CountersMean(rs: seq<Record>)
    ensures CountsMatch(Folded(rs), rs) && LatestMatch(Folded(rs), rs)
  {
    if rs != [] {
      var front, last := rs[..|rs| - 1], rs[|rs| - 1];
      CountersMean(front);
      AppliedCounts(Folded(front), front, last);
      AppliedStart(Folded(front), front, last);
      AppliedNode(Folded(front), front, last);
      AppliedOutcome(Folded(front), front, last);
      SplitLast(rs);
      hide CountsMatch, NodeMatches, OutcomeMatches, FirstTime, Applied;
    }
  }

  // ---- conservation -----------------------------------------------------

  ghost function Sum<K>(m: map<K, nat>): nat {
    if m == map[] then 0 else var k :| k in m; m[k] + Sum(m - {k})
  }

  lemma {:induction false} SumWithout<K>(m: map<K, nat>, k: K)
    requires k in m
    ensures Sum(m) == m[k] + Sum(m - {k})
    decreases |m|
  {
    var j :| j in m && Sum(m) == m[j] + Sum(m - {j});
    if j != k {
      SumWithout(m - {j}, k);
      SumWithout(m - {k}, j);
      assert m - {j} - {k} == m - {k} - {j};
    }
  }

  lemma SumBump<K>(m: map<K, nat>, k: K, v: nat)
    requires v >= At(m, k)
    ensures Sum(m[k := v]) == Sum(m) + v - At(m, k)
  {
    SumWithout(m[k := v], k);
    if k in m {
      SumWithout(m, k);
      assert m[k := v] - {k} == m - {k};
    } else {
      assert m[k := v] - {k} == m;
    }
  }

  ghost function KindTotals(g: Rollups): map<Key, nat> {
    map k | k in g :: Sum(g[k].kinds)
  }

  /** Every record is counted once: the kind counts over all rollups sum to the number of records. */
  lemma {:induction false} KindCountsSum(rs: seq<Record>)
    ensures Sum(KindTotals(Grouped(rs))) == |rs|
  {
    if rs == [] {
      assert KindTotals(Grouped(rs)) == map[];
    } else {
      KindCountsSum(rs[..|rs| - 1]);
      UpdateCountsOne(Grouped(rs[..|rs| - 1]), rs[|rs| - 1]);
    }
  }

  lemma UpdateCountsOne(g: Rollups, r: Record)
    ensures Sum(KindTotals(Updated(g, r))) == Sum(KindTotals(g)) + 1
  {
    hide Updated, Sum, Bump, Applied;
    var k := KeyOf(r);
    var kinds := if k in g then g[k].kinds else map[];
    UpdatedTotals(g, r);
    BumpCountsOne(kinds, r.kind);
    SumBump(KindTotals(g), k, Sum(kinds) + 1);
    EmptySum<Option<string>>();
  }

  lemma BumpCountsOne<K>(m: map<K, nat>, k: K)
    ensures Sum(Bump(m, k)) == Sum(m) + 1
  {
    SumBump(m, k, At(m, k) + 1);
  }

  lemma AppliedKinds(c: Counters, r: Record)
    ensures Applied(c, r).kinds == Bump(c.kinds, r.kind)
  {
  }

  lemma UpdatedTotals(g: Rollups, r: Record)
    ensures var k := KeyOf(r);
            KindTotals(Updated(g, r)) == KindTotals(g)[k := Sum(Bump(if k in g then g[k].kinds else map[], r.kind))]
  {
    hide Applied, Sum, Bump;
    AppliedKinds(if KeyOf(r) in g then g[KeyOf(r)] else ZERO, r);
  }

  lemma EmptySum<K>()
    ensures Sum<K>(map[]) == 0
  {
  }

  // ---- runs -------------------------------------------------------------

  datatype Op =
    | Ingest(record: Record)
    | Load
    | Retain(maxAge: Option<real>, maxRecords: Option<int>, now: real)

  function Do(b: Bus, op: Op): Bus {
    match op
    case Ingest(r) => Ingested(b, r)
    case Load => Loaded(b).0
    case Retain(maxAge, maxRecords, now) => Retained(b, maxAge, maxRecords, now).0
  }

  function DoAll(b: Bus, ops: seq<Op>): Bus {
    if ops == [] then b else Do(DoAll(b, ops[..|ops| - 1]), ops[|ops| - 1])
  }

  /** The rollups are those of the journal. */
  ghost predicate InSync(b: Bus) {
    b.journal.Some? && Clean(b.journal.value) && b.rollups == Grouped(Records(b.journal.value))
  }

  lemma {:induction false} YoungAreEntries(lines: seq<Line>, maxAge: Option<real>, now: real)
    ensures forall l :: l in Young(lines, maxAge, now) ==>
              l.Entry? && l in lines && !TooOld(l.record, maxAge, now)
  {
    if lines != [] {
      YoungAreEntries(lines[..|lines| - 1], maxAge, now);
      SplitLast(lines);
    }
  }

  lemma DoKeepsSync(b: Bus, op: Op)
    requires InSync(b) && b.open
    ensures InSync(Do(b, op)) && Do(b, op).open
  {
    match op
    case Ingest(r) => EntriesSnoc(b.journal.value, Entry(r));
    case Load =>
    case Retain(maxAge, maxRecords, now) => YoungAreEntries(b.journal.value, maxAge, now);
  }

  /** In every run from an empty or loaded journal, the rollups are those of the journal after every step. */
  lemma {:induction false} RunsStayInSync(b: Bus, ops: seq<Op>)
    requires InSync(b) && b.open
    ensures InSync(DoAll(b, ops)) && DoAll(b, ops).open
    ensures Sum(KindTotals(DoAll(b, ops).rollups)) == |Records(DoAll(b, ops).journal.value)|
    decreases |ops|
  {
    if ops != [] {
      RunsStayInSync(b, ops[..|ops| - 1]);
      DoKeepsSync(DoAll(b, ops[..|ops| - 1]), ops[|ops| - 1]);
    }
    KindCountsSum(Records(DoAll(b, ops).journal.value));
  }

  /** No record stands behind the first line that is not an object. */
  ghost predicate NoneBehindForeign(lines: seq<Line>) {
    forall i :: |BeforeForeign(lines)| <= i < |lines| ==> !lines[i].Entry?
  }

  /** The record of a line, if it has one. */
  function RecordOf(l: Line): seq<Record> {
    if l.Entry? then [l.record] else []
  }

  lemma RecordsSnoc(lines: seq<Line>, l: Line)
    ensures Records(lines + [l]) == Records(lines) + RecordOf(l)
  {
    assert (lines + [l])[..|lines|] == lines;
  }

  lemma {:induction false} RecordsConcat(a: seq<Line>, b: seq<Line>)
    ensures Records(a + b) == Records(a) + Records(b)
    decreases |b|
  {
    if b == [] {
      assert a + b == a;
    } else {
      var front, last := b[..|b| - 1], b[|b| - 1];
      RecordsConcat(a, front);
      RecordsSnoc(a + front, last);
      RecordsSnoc(front, last);
      hide Records, RecordOf;
      SplitLast(b);
      assert a + b == (a + front) + [last];
    }
  }

  lemma {:induction false} NoRecordsIff(lines: seq<Line>)
    ensures Records(lines) == [] <==> forall i :: 0 <= i < |lines| ==> !lines[i].Entry?
  {
    if lines != [] {
      var front, last := lines[..|lines| - 1], lines[|lines| - 1];
      NoRecordsIff(front);
      assert Records(lines) == Records(front) + RecordOf(last);
      hide Records;
      assert forall i :: 0 <= i < |front| ==> lines[i] == front[i];
    }
  }

  /** More lines leave the rollups as they are exactly when none of them holds a record. */
  lemma SameRollupsIff(front: seq<Line>, rest: seq<Line>)
    ensures Grouped(Records(front)) == Grouped(Records(front + rest)) <==>
            forall i :: 0 <= i < |rest| ==> !rest[i].Entry?
  {
    hide Grouped, Records, Sum, KindTotals;
    RecordsConcat(front, rest);
    NoRecordsIff(rest);
    KindCountsSum(Records(front));
    KindCountsSum(Records(front + rest));
    if Records(rest) == [] { assert Records(front + rest) == Records(front); }
  }

  lemma Behind(lines: seq<Line>, k: nat)
    requires k <= |lines|
    ensures (forall i :: k <= i < |lines| ==> !lines[i].Entry?) <==>
            forall i :: 0 <= i < |lines[k..]| ==> !lines[k..][i].Entry?
  {
    forall i | k <= i < |lines| ensures lines[i] == lines[k..][i - k] {}
  }

  /**
   A load succeeds exactly when every line is an object or is skipped. Its rollups are
   those of all the journal's records exactly when none of them stands behind the line
   that made it fail. Loading again changes nothing.
   */
  lemma LoadSyncsIffClean(b: Bus)
    requires b.journal.Some?
    ensures var (b1, n) := Loaded(b);
            && (n.Ok? <==> Clean(b.journal.value))
            && (b1.rollups == Grouped(Records(b.journal.value)) <==> NoneBehindForeign(b.journal.value))
            && (n.Ok? ==> n.value == |Records(b.journal.value)|)
            && Loaded(b1) == (b1, n)
  {
    var lines := b.journal.value;
    var front := BeforeForeign(lines);
    assert lines == front + lines[|front|..];
    SameRollupsIff(front, lines[|front|..]);
    Behind(lines, |front|);
    hide Grouped, Records;
  }

  /** A journal whose loading fails and yet misses nothing, and one whose loading misses a record. */
  lemma FailedLoads(r: Record)
    ensures var b := Bus(Some([Entry(r), Foreign]), true, map[]);
            Loaded(b).1 == Err(NotAnObject) && Loaded(b).0.rollups == Grouped(Records(b.journal.value))
    ensures var b := Bus(Some([Foreign, Entry(r)]), true, map[]);
            Loaded(b).1 == Err(NotAnObject) && Loaded(b).0.rollups != Grouped(Records(b.journal.value))
  {
    var b := Bus(Some([Entry(r), Foreign]), true, map[]);
    LoadSyncsIffClean(b);
    BeforeForeignAt(b.journal.value, 1);
    var d := Bus(Some([Foreign, Entry(r)]), true, map[]);
    LoadSyncsIffClean(d);
    BeforeForeignAt(d.journal.value, 0);
    assert d.journal.value[1].Entry?;
  }

  /** A record taken while the journal is closed is counted but not written, and the bus is out of sync. */
  lemma ClosedIngestDrifts(b: Bus, r: Record)
    requires InSync(b)
    ensures !InSync(Ingested(Closed(b), r))
  {
    var rs := Records(b.journal.value);
    KindCountsSum(rs);
    KindCountsSum(rs + [r]);
    assert (rs + [r])[..|rs|] == rs;
  }

  // ---- retention --------------------------------------------------------

  function NonBlank(lines: seq<Line>): nat {
    if lines == [] then 0
    else NonBlank(lines[..|lines| - 1]) + if lines[|lines| - 1].Blank? then 0 else 1
  }

  lemma {:induction false} YoungAndDropped(lines: seq<Line>, maxAge: Option<real>, now: real)
    requires Clean(lines)
    ensures |Young(lines, maxAge, now)| + Dropped(lines, maxAge, now) == NonBlank(lines)
  {
    if lines != [] {
      SplitLast(lines);
      YoungAndDropped(lines[..|lines| - 1], maxAge, now);
    }
  }

  /** Removed plus kept is the number of lines exactly when the record bound is not negative. */
  lemma RetainCountsIff(b: Bus, maxAge: Option<real>, maxRecords: Option<int>, now: real)
    requires b.journal.Some? && Clean(b.journal.value)
    ensures var (b1, n) := Retained(b, maxAge, maxRecords, now);
            n.Ok? &&
            (n.value + |b1.journal.value| == NonBlank(b.journal.value) <==> maxRecords.None? || maxRecords.value >= 0)
  {
    YoungAndDropped(b.journal.value, maxAge, now);
  }

  /** A negative bound on one record: one is removed, none is kept, and two are reported. */
  lemma NegativeBoundOvercounts(r: Record)
    ensures var b := Bus(Some([Entry(r)]), true, map[]);
            Retained(b, None, Some(-1), 0.0).1 == Ok(2) && NonBlank(b.journal.value) == 1
  {
    var lines := [Entry(r)];
    assert lines[..0] == [];
    assert Young(lines, None, 0.0) == lines;
    assert NonBlank(lines) == NonBlank([]) + 1;
    assert Dropped(lines, None, 0.0) == Dropped([], None, 0.0);
    assert Overflow(|Young(lines, None, 0.0)|, Some(-1)) == 2;
  }

  /** A record no older than the bound; one without a time counts as of time zero. */
  ghost predicate Within(r: Record, maxAge: Option<real>, now: real) {
    maxAge.Some? ==> now <= (if r.ts.Some? then r.ts.value else 0.0) + maxAge.value
  }

  /** Where the young entries stand in the journal: in order, and all of them. */
  lemma {:induction false} YoungInOrder(lines: seq<Line>, maxAge: Option<real>, now: real) returns (at: seq<nat>)
    ensures var young := Young(lines, maxAge, now);
            && |at| == |young| && Increasing(at)
            && (forall i :: 0 <= i < |at| ==> at[i] < |lines| && young[i] == lines[at[i]])
            && (forall k :: 0 <= k < |lines| ==> (k in at <==> lines[k].Entry? && Within(lines[k].record, maxAge, now)))
  {
    at := [];
    if lines != [] {
      var n := |lines| - 1;
      var front := YoungInOrder(lines[..n], maxAge, now);
      at := front + if lines[n].Entry? && Within(lines[n].record, maxAge, now) then [n] else [];
      forall k | 0 <= k < |lines| ensures k in at <==> lines[k].Entry? && Within(lines[k].record, maxAge, now) {
        if k < n {
          assert lines[..n][k] == lines[k];
        } else {
          assert forall i :: 0 <= i < |front| ==> front[i] < n;
          assert n !in front;
        }
      }
    }
  }

  /** What is kept: the last entries of those young enough, none past the bound. */
  lemma RetainKeepsTail(lines: seq<Line>, maxAge: Option<real>, maxRecords: Option<int>, now: real)
    requires maxRecords.Some? ==> maxRecords.value >= 0
    ensures var kept, young := Kept(lines, maxAge, maxRecords, now), Young(lines, maxAge, now);
            && |kept| <= |young| && kept == young[|young| - |kept|..]
            && (forall l :: l in kept ==> l.Entry? && l in lines && Within(l.record, maxAge, now))
            && (|kept| == if maxRecords.Some? && maxRecords.value < |young| then maxRecords.value else |young|)
  {
    YoungAreEntries(lines, maxAge, now);
  }

  lemma {:induction false} YoungAll(lines: seq<Line>, maxAge: Option<real>, now: real)
    requires forall l :: l in lines ==> l.Entry? && !TooOld(l.record, maxAge, now)
    ensures Young(lines, maxAge, now) == lines && Dropped(lines, maxAge, now) == 0
  {
    if lines != [] {
      SplitLast(lines);
      YoungAll(lines[..|lines| - 1], maxAge, now);
    }
  }

  /** Retaining again at the same time removes nothing. */
  lemma RetainIdempotent(b: Bus, maxAge: Option<real>, maxRecords: Option<int>, now: real)
    requires b.journal.Some? && Clean(b.journal.value)
    requires maxRecords.Some? ==> maxRecords.value >= 0
    ensures var b1 := Retained(b, maxAge, maxRecords, now).0;
            Retained(b1, maxAge, maxRecords, now) == (b1, Ok(0))
  {
    var kept := Kept(b.journal.value, maxAge, maxRecords, now);
    KeptStays(b.journal.value, maxAge, maxRecords, now);
    hide Kept, Removed, Grouped, Records, Clean;
  }

  lemma KeptStays(lines: seq<Line>, maxAge: Option<real>, maxRecords: Option<int>, now: real)
    requires maxRecords.Some? ==> maxRecords.value >= 0
    ensures var kept := Kept(lines, maxAge, maxRecords, now);
            Clean(kept) && Kept(kept, maxAge, maxRecords, now) == kept && Removed(kept, maxAge, maxRecords, now) == 0
  {
    var kept := Kept(lines, maxAge, maxRecords, now);
    RetainKeepsTail(lines, maxAge, maxRecords, now);
    YoungAll(kept, maxAge, now);
    hide Young, Dropped, TooOld;
    assert kept[0..] == kept;
  }
}
