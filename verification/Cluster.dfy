/**
 A cluster: units on one runtime, a shared blackboard and the watchdog. Every
 interleaving of posts, queue reads and metric writes is a sequence of events; the
 watchdog's signals reach only the workflow that caused them.
 */
module Cluster {
  import opened Common
  import opened WatchdogPolicies
  import opened WatchdogUnits
  import H = WatchdogHistory
  import L = WatchdogBounds

  const WATCHDOG: UnitId := "watchdog"

  /** What a signal carries; `Plain` stands for every signal that is neither a report nor the watchdog's. */
  datatype Payload = Carries(report: Report) | Controls(kind: Kind, cause: Cause) | Plain

  datatype Signal = Signal(src: UnitId, dst: UnitId, payload: Payload)

  /** One queue per registered unit. */
  type Queues = map<UnitId, seq<Signal>>

  // ---- the runtime ------------------------------------------------------

  function Posted(q: Queues, src: UnitId, dst: UnitId, p: Payload): Queues {
    if dst in q then q[dst := q[dst] + [Signal(src, dst, p)]] else q
  }

  function Broadcasted(q: Queues, src: UnitId, p: Payload): Queues {
    map u | u in q :: q[u] + [Signal(src, "*", p)]
  }

  class Runtime {
    var queues: Queues

    constructor ()
      ensures queues == map[]
    {
      queues := map[];
    }

    method Register(id: UnitId)
      modifies this
      ensures queues == old(queues)[id := []]
    {
      queues := queues[id := []];
    }

    method Post(src: UnitId, dst: UnitId, p: Payload) returns (known: bool)
      modifies this
      ensures queues == Posted(old(queues), src, dst, p)
      ensures known == (dst in old(queues))
    {
      if dst !in queues { return false; }
      Deliver(dst, Signal(src, dst, p));
      return true;
    }

    method Broadcast(src: UnitId, p: Payload) returns (count: nat)
      modifies this
      ensures queues == Broadcasted(old(queues), src, p)
      ensures count == |old(queues)|
    {
      var rest := queues.Keys;
      while rest != {}
        invariant rest <= queues.Keys == old(queues).Keys
        invariant forall u :: u in queues ==>
                    queues[u] == old(queues)[u] + (if u in rest then [] else [Signal(src, "*", p)])
      {
        var u :| u in rest;
        Deliver(u, Signal(src, "*", p));
        rest := rest - {u};
      }
      count := |queues|;
      assert |queues| == |queues.Keys| && |old(queues)| == |old(queues).Keys|;
    }

    method Deliver(id: UnitId, s: Signal)
      requires id in queues
      modifies this
      ensures queues == old(queues)[id := old(queues)[id] + [s]]
    {
      queues := queues[id := queues[id] + [s]];
    }

    /** A unit's thread takes the oldest signal of its own queue. */
    method Take(id: UnitId) returns (s: Option<Signal>)
      modifies this
      ensures s == Head(old(queues), id) && queues == Taken(old(queues), id)
    {
      if id !in queues || queues[id] == [] { return None; }
      s := Some(queues[id][0]);
      queues := queues[id := queues[id][1..]];
    }
  }

  function Head(q: Queues, id: UnitId): Option<Signal> {
    if id in q && q[id] != [] then Some(q[id][0]) else None
  }

  function Taken(q: Queues, id: UnitId): Queues {
    if id in q && q[id] != [] then q[id := q[id][1..]] else q
  }

  /**
   The queues are first in, first out: what is posted or broadcast is taken last, after all
   that was there before, and nobody else's queue changes.
   */
  lemma QueuesAreFifo(q: Queues, src: UnitId, dst: UnitId, p: Payload, u: UnitId)
    requires u in q
    ensures var s, after := Signal(src, dst, p), Posted(q, src, dst, p);
            && u in after
            && Head(after, u) == (if u == dst && q[u] == [] then Some(s) else Head(q, u))
            && Taken(after, u) == (if u == dst && q[u] == [] then q else Posted(Taken(q, u), src, dst, p))
    ensures var s, after := Signal(src, "*", p), Broadcasted(q, src, p);
            && u in after
            && Head(after, u) == (if q[u] == [] then Some(s) else Head(q, u))
            && Taken(after, u)[u] == (if q[u] == [] then [] else Broadcasted(Taken(q, u), src, p)[u])
  {
    var s := Signal(src, dst, p);
    if u == dst {
      if q[u] == [] {
        assert [s][1..] == [];
        assert Taken(Posted(q, src, dst, p), u) == q;
      } else {
        assert (q[u] + [s])[1..] == q[u][1..] + [s];
      }
    }
    var all := Signal(src, "*", p);
    if q[u] == [] { assert [all][1..] == []; } else { assert (q[u] + [all])[1..] == q[u][1..] + [all]; }
  }

  // ---- the watchdog's sends ---------------------------------------------

  function Sent(q: Queues, o: Out): Queues {
    var p := Controls(o.kind, o.cause);
    if o.dst == "*" then Broadcasted(q, WATCHDOG, p) else Posted(q, WATCHDOG, o.dst, p)
  }

  function AllSent(q: Queues, outs: seq<Out>): Queues
    decreases |outs|
  {
    if outs == [] then q else AllSent(Sent(q, outs[0]), outs[1..])
  }

  /** An id that addresses one unit: neither empty nor the broadcast mark. */
  predicate Addressable(id: UnitId) {
    id != "" && id != "*"
  }

  /** A signal meant for `owner` reaches `owner` alone, whoever is registered, exactly when the id is addressable. */
  lemma ReachesOwnerAloneIff(c: Config, owner: UnitId, kind: Kind, cause: Cause)
    requires c.controlDst != ""
    ensures Addressable(owner) <==>
            forall q: Queues, u :: u in q && Sent(q, Out(Target(c, owner), kind, cause))[u] != q[u] ==> u == owner
  {
    var o := Out(Target(c, owner), kind, cause);
    if !Addressable(owner) {
      var u := if owner == "*" then "b" else o.dst;
      var q: Queues := map[u := []];
      assert u in q && Sent(q, o)[u] != q[u] && u != owner;
    }
  }

  // ---- events -----------------------------------------------------------

  function Put(b: Board, wid: UnitId, m: Metrics): Board
    decreases |b|
  {
    if b == [] || Before(wid, b[0].0) then [(wid, m)] + b
    else if b[0].0 == wid then [(wid, m)] + b[1..]
    else [b[0]] + Put(b[1..], wid, m)
  }

  /** The order in which ids are scanned. */
  predicate Before(a: string, b: string)
    decreases |a|
  {
    b != [] && (a == [] || a[0] < b[0] || (a[0] == b[0] && Before(a[1..], b[1..])))
  }

  datatype Event =
    | Joins(id: UnitId)
    | Reports(src: UnitId, report: Report)
    | Posts(src: UnitId, dst: UnitId)
    | Broadcasts(src: UnitId)
    | Takes(id: UnitId)
    | Watches(now: real)
    | Writes(wid: UnitId, metrics: Metrics, now: real)

  datatype State = State(queues: Queues, watch: Watch, board: Board, sent: seq<Out>)

  const START := State(map[WATCHDOG := []], FRESH_WATCH, [], [])

  function Emitting(s: State, w: Watch, outs: seq<Out>): State {
    s.(watch := w, queues := AllSent(s.queues, outs), sent := s.sent + outs)
  }

  function Step(c: Config, s: State, e: Event): State
  {
    match e
    case Joins(id) => if id == WATCHDOG then s else s.(queues := s.queues[id := []])
    case Reports(src, r) => s.(queues := Posted(s.queues, src, WATCHDOG, Carries(r)))
    case Posts(src, dst) => s.(queues := Posted(s.queues, src, dst, Plain))
    case Broadcasts(src) => s.(queues := Broadcasted(s.queues, src, Plain))
    case Takes(id) => if id == WATCHDOG then s else s.(queues := Taken(s.queues, id))
    case Watches(now) =>
      var head := Head(s.queues, WATCHDOG);
      var s1 := s.(queues := Taken(s.queues, WATCHDOG));
      if head.None? || !head.value.payload.Carries? then s1
      else
        var (w, outs) := OnReport(c, s.watch, head.value.src, head.value.payload.report, now, s.board);
        Emitting(s1, w, outs)
    case Writes(wid, m, now) =>
      var s1 := s.(board := Put(s.board, wid, m));
      var (w, outs) := ScanGlobal(c, s.watch, s1.board, now);
      Emitting(s1, w, outs)
  }

  function Run(c: Config, events: seq<Event>): State
  {
    if events == [] then START else Step(c, Run(c, events[..|events| - 1]), events[|events| - 1])
  }

  /** Every report and every metric comes from an addressable id. */
  ghost predicate WellNamed(events: seq<Event>) {
    forall e :: e in events ==>
      (e.Reports? ==> Addressable(e.src)) && (e.Writes? ==> Addressable(e.wid))
  }

  ghost predicate Wrote(events: seq<Event>, wid: UnitId, m: Metrics) {
    exists e :: e in events && e.Writes? && e.wid == wid && e.metrics == m
  }

  ghost predicate CausedBy(c: Config, events: seq<Event>, b: UnitId, kind: Kind, cause: Cause) {
    match cause
    case FromReport(src, r) => src == b && Reports(b, r) in events
    case FromMetrics(wid, g, m, now) => wid == b && kind == StopSignal && Wrote(events, b, m) && Crossed(c, g, m, now)
  }

  ghost predicate Justified(c: Config, events: seq<Event>, b: UnitId, s: Signal) {
    match s.payload
    case Carries(r) => Reports(s.src, r) in events
    case Controls(kind, cause) => CausedBy(c, events, b, kind, cause)
    case Plain => true
  }

  ghost predicate QueuesJustified(c: Config, events: seq<Event>, q: Queues) {
    forall b, i :: b in q && 0 <= i < |q[b]| ==> Justified(c, events, b, q[b][i])
  }

  ghost predicate BoardWritten(events: seq<Event>, board: Board) {
    forall i :: 0 <= i < |board| ==> Wrote(events, board[i].0, board[i].1)
  }

  ghost predicate Isolated(c: Config, events: seq<Event>, s: State) {
    && WATCHDOG in s.queues
    && QueuesJustified(c, events, s.queues)
    && BoardWritten(events, s.board)
    && FiredOnce({}, s.watch.globalFired, s.sent)
  }

  // ---- the proof --------------------------------------------------------

  lemma MoreEvents(c: Config, events: seq<Event>, e: Event, s: State)
    requires Isolated(c, events, s)
    ensures Isolated(c, events + [e], s)
  {
    var more := events + [e];
    assert forall x :: x in events ==> x in more;
    forall i | 0 <= i < |s.board| ensures Wrote(more, s.board[i].0, s.board[i].1) {
      assert Wrote(events, s.board[i].0, s.board[i].1);
    }
    forall b, i | b in s.queues && 0 <= i < |s.queues[b]| ensures Justified(c, more, b, s.queues[b][i]) {
      assert Justified(c, events, b, s.queues[b][i]);
    }
  }

  lemma PostJustified(c: Config, events: seq<Event>, q: Queues, src: UnitId, dst: UnitId, p: Payload)
    requires QueuesJustified(c, events, q)
    requires Justified(c, events, dst, Signal(src, dst, p))
    ensures QueuesJustified(c, events, Posted(q, src, dst, p))
    ensures Posted(q, src, dst, p).Keys == q.Keys
  {
    hide Justified;
  }

  /** A signal of the watchdog that answers for its single, addressable destination. */
  ghost predicate OutJustified(c: Config, events: seq<Event>, o: Out) {
    Addressable(o.dst) && CausedBy(c, events, o.dst, o.kind, o.cause)
  }

  lemma {:induction false} SendsJustified(c: Config, events: seq<Event>, q: Queues, outs: seq<Out>)
    requires QueuesJustified(c, events, q)
    requires forall o :: o in outs ==> OutJustified(c, events, o)
    ensures QueuesJustified(c, events, AllSent(q, outs)) && AllSent(q, outs).Keys == q.Keys
    decreases |outs|
  {
    if outs != [] {
      hide QueuesJustified, CausedBy;
      var o := outs[0];
      assert OutJustified(c, events, o);
      PostJustified(c, events, q, WATCHDOG, o.dst, Controls(o.kind, o.cause));
      SendsJustified(c, events, Sent(q, o), outs[1..]);
    }
  }

  lemma {:induction false} PutWritten(events: seq<Event>, b: Board, wid: UnitId, m: Metrics)
    requires BoardWritten(events, b) && Wrote(events, wid, m)
    ensures BoardWritten(events, Put(b, wid, m))
    decreases |b|
  {
    if b == [] || Before(wid, b[0].0) || b[0].0 == wid {
      hide Wrote;
    } else {
      PutWritten(events, b[1..], wid, m);
      hide Wrote;
      assert Wrote(events, b[0].0, b[0].1);
    }
  }

  lemma MetricsJustified(c: Config, events: seq<Event>, board: Board, o: Out)
    requires WellNamed(events) && BoardWritten(events, board)
    requires o.cause.FromMetrics? && Answers(c, o, board)
    ensures OutJustified(c, events, o)
  {
    var i :| 0 <= i < |board| && board[i] == (o.cause.wid, o.cause.metrics);
    assert Wrote(events, board[i].0, board[i].1);
  }

  lemma EmittingIsolated(c: Config, events: seq<Event>, s: State, w: Watch, outs: seq<Out>)
    requires Isolated(c, events, s)
    requires forall o :: o in outs ==> OutJustified(c, events, o)
    requires FiredOnce(s.watch.globalFired, w.globalFired, outs)
    ensures Isolated(c, events, Emitting(s, w, outs))
  {
    hide FiredOnce, QueuesJustified, OutJustified, BoardWritten;
    SendsJustified(c, events, s.queues, outs);
    FiredOnceConcat({}, s.watch.globalFired, w.globalFired, s.sent, outs);
  }

  lemma TakenJustified(c: Config, events: seq<Event>, s: State, id: UnitId)
    requires Isolated(c, events, s)
    ensures Isolated(c, events, s.(queues := Taken(s.queues, id)))
    ensures Head(s.queues, id).Some? ==> Justified(c, events, id, Head(s.queues, id).value)
  {
    hide Justified, FiredOnce, BoardWritten;
  }

  lemma WatchesIsolated(c: Config, events: seq<Event>, s: State, now: real)
    requires WellNamed(events) && Isolated(c, events, s)
    ensures Isolated(c, events, Step(c, s, Watches(now)))
  {
    hide OnReport, Isolated, FiredOnce, QueuesJustified, CausedBy, Answers, BoardWritten;
    var head := Head(s.queues, WATCHDOG);
    var s1 := s.(queues := Taken(s.queues, WATCHDOG));
    TakenJustified(c, events, s, WATCHDOG);
    if head.Some? && head.value.payload.Carries? {
      var src, r := head.value.src, head.value.payload.report;
      var (w, outs) := OnReport(c, s.watch, src, r, now, s.board);
      ReportAnswers(c, s.watch, src, r, now, s.board);
      ReportOutsJustified(c, events, s, src, r, outs);
      EmittingIsolated(c, events, s1, w, outs);
    }
  }

  lemma ReportOutsJustified(c: Config, events: seq<Event>, s: State, src: UnitId, r: Report, outs: seq<Out>)
    requires WellNamed(events) && Isolated(c, events, s) && Reports(src, r) in events
    requires forall i :: 0 <= i < |outs| ==>
               if outs[i].cause.FromReport?
               then outs[i].dst == Target(c, src) && outs[i].cause == FromReport(src, r)
               else Answers(c, outs[i], s.board)
    ensures forall o :: o in outs ==> OutJustified(c, events, o)
  {
    hide Answers, BoardWritten;
    forall o | o in outs ensures OutJustified(c, events, o) {
      var i :| 0 <= i < |outs| && outs[i] == o;
      if o.cause.FromMetrics? { MetricsJustified(c, events, s.board, o); }
    }
  }

  lemma WritesIsolated(c: Config, events: seq<Event>, s: State, wid: UnitId, m: Metrics, now: real)
    requires WellNamed(events) && Isolated(c, events, s)
    requires Writes(wid, m, now) in events
    ensures Isolated(c, events, Step(c, s, Writes(wid, m, now)))
  {
    assert Wrote(events, wid, m);
    hide CheckAll, FiredOnce, QueuesJustified, CausedBy, Answers, BoardWritten, Put, Wrote;
    var s1 := s.(board := Put(s.board, wid, m));
    PutWritten(events, s.board, wid, m);
    var (w, outs) := ScanGlobal(c, s.watch, s1.board, now);
    ScanAnswers(c, Prune(s.watch, now), s1.board, now, s1.board);
    forall o | o in outs ensures OutJustified(c, events, o) {
      MetricsJustified(c, events, s1.board, o);
    }
    EmittingIsolated(c, events, s1, w, outs);
  }

  lemma QuietIsolated(c: Config, events: seq<Event>, s: State, e: Event)
    requires Isolated(c, events, s) && e in events
    requires !e.Watches? && !e.Writes?
    ensures Isolated(c, events, Step(c, s, e))
  {
    hide FiredOnce, BoardWritten;
    match e
    case Joins(id) =>
    case Reports(src, r) => PostJustified(c, events, s.queues, src, WATCHDOG, Carries(r));
    case Posts(src, dst) => PostJustified(c, events, s.queues, src, dst, Plain);
    case Broadcasts(src) =>
    case Takes(id) => TakenJustified(c, events, s, id);
  }

  lemma NamedFront(past: seq<Event>, e: Event)
    requires WellNamed(past + [e])
    ensures WellNamed(past)
  {
    assert forall x :: x in past ==> x in past + [e];
  }

  lemma StartIsolated(c: Config)
    ensures Isolated(c, [], START)
  {
  }

  lemma StepIsolated(c: Config, past: seq<Event>, e: Event, s: State)
    requires WellNamed(past + [e]) && Isolated(c, past, s)
    ensures Isolated(c, past + [e], Step(c, s, e))
  {
    hide Isolated, WellNamed, Step;
    var events := past + [e];
    assert events[|past|] == e;
    MoreEvents(c, past, e, s);
    match e
    case Watches(now) => WatchesIsolated(c, events, s, now);
    case Writes(wid, m, now) => WritesIsolated(c, events, s, wid, m, now);
    case _ => QuietIsolated(c, events, s, e);
  }

  /**
   Isolation, over every interleaving: a watchdog signal in B's queue answers a report
   B itself sent, or a metric B itself wrote that crossed its bound; and no global guard
   fires twice for one workflow.
   */
  lemma {:induction false} RunsAreIsolated(c: Config, events: seq<Event>)
    requires WellNamed(events)
    ensures Isolated(c, events, Run(c, events))
    decreases |events|
  {
    hide Isolated, WellNamed, Step;
    if events != [] {
      var past, e := events[..|events| - 1], events[|events| - 1];
      assert past + [e] == events;
      NamedFront(past, e);
      RunsAreIsolated(c, past);
      StepIsolated(c, past, e, Run(c, past));
    } else {
      StartIsolated(c);
    }
  }

  ghost predicate Queued(s: State, b: UnitId, m: Signal) {
    b in s.queues && m in s.queues[b]
  }

  /** Read off the invariant: what a watchdog signal in B's queue answers. */
  lemma StopsAreOwn(c: Config, events: seq<Event>, b: UnitId, m: Signal)
    requires WellNamed(events)
    requires Queued(Run(c, events), b, m) && m.payload.Controls?
    ensures m.payload.cause.FromReport? ==> m.payload.cause.src == b && Reports(b, m.payload.cause.report) in events
    ensures m.payload.cause.FromMetrics? ==>
              && m.payload.cause.wid == b && m.payload.kind == StopSignal
              && Wrote(events, b, m.payload.cause.metrics)
              && Crossed(c, m.payload.cause.guard, m.payload.cause.metrics, m.payload.cause.now)
  {
    RunsAreIsolated(c, events);
    assert Justified(c, events, b, m);
  }

  ghost predicate SentOnce(sent: seq<Out>) {
    forall j, k :: 0 <= j < k < |sent| && sent[j].cause.FromMetrics? && sent[k].cause.FromMetrics? ==>
      (sent[j].cause.guard, sent[j].cause.wid) != (sent[k].cause.guard, sent[k].cause.wid)
  }

  /** Whatever the ids, a step spends every guard it fires. */
  lemma StepFiresOnce(c: Config, s: State, e: Event)
    requires FiredOnce({}, s.watch.globalFired, s.sent)
    ensures var t := Step(c, s, e); FiredOnce({}, t.watch.globalFired, t.sent)
  {
    hide FiredOnce, OnReport, CheckAll, Answers, AllSent, Put, Prune;
    match e
    case Watches(now) =>
      var head := Head(s.queues, WATCHDOG);
      if head.Some? && head.value.payload.Carries? {
        var src, r := head.value.src, head.value.payload.report;
        var (w, outs) := OnReport(c, s.watch, src, r, now, s.board);
        ReportAnswers(c, s.watch, src, r, now, s.board);
        FiredOnceConcat({}, s.watch.globalFired, w.globalFired, s.sent, outs);
      }
    case Writes(wid, m, now) =>
      var board := Put(s.board, wid, m);
      var (w, outs) := ScanGlobal(c, s.watch, board, now);
      ScanAnswers(c, Prune(s.watch, now), board, now, board);
      PruneKeepsFired(s.watch, now);
      FiredOnceConcat({}, s.watch.globalFired, w.globalFired, s.sent, outs);
    case _ =>
  }

  lemma PruneKeepsFired(w: Watch, now: real)
    ensures Prune(w, now).globalFired == w.globalFired
  {
  }

  lemma {:induction false} RunFiresOnce(c: Config, events: seq<Event>)
    ensures FiredOnce({}, Run(c, events).watch.globalFired, Run(c, events).sent)
    decreases |events|
  {
    if events != [] {
      hide Step, FiredOnce;
      RunFiresOnce(c, events[..|events| - 1]);
      StepFiresOnce(c, Run(c, events[..|events| - 1]), events[|events| - 1]);
    }
  }

  /** Over every run, whoever reports or writes, no global guard stops one workflow twice. */
  lemma GuardsFireOnce(c: Config, events: seq<Event>)
    ensures SentOnce(Run(c, events).sent)
  {
    RunFiresOnce(c, events);
  }

  // ---- what the watchdog of a run has heard ------------------------------

  /** The report or scan an event makes the watchdog heed, if any. */
  function HeardAt(s: State, e: Event): seq<H.Heard> {
    match e
    case Watches(now) =>
      var head := Head(s.queues, WATCHDOG);
      if head.Some? && head.value.payload.Carries?
      then [H.Told(head.value.src, head.value.payload.report, now, s.board)] else []
    case Writes(wid, m, now) => [H.Scanned(now, Put(s.board, wid, m))]
    case _ => []
  }

  function HeardBy(c: Config, events: seq<Event>): seq<H.Heard> {
    if events == [] then []
    else
      var front := events[..|events| - 1];
      HeardBy(c, front) + HeardAt(Run(c, front), events[|events| - 1])
  }

  lemma StepHeeds(c: Config, s: State, e: Event)
    ensures var heard := HeardAt(s, e);
            |heard| <= 1 && Step(c, s, e).watch == if heard == [] then s.watch else H.Heed(c, s.watch, heard[0]).0
    ensures var heard := HeardAt(s, e);
            Step(c, s, e).sent == if heard == [] then s.sent else s.sent + H.Heed(c, s.watch, heard[0]).1
  {
    hide OnReport, ScanGlobal, AllSent, Put;
  }

  lemma AfterMore(c: Config, past: seq<H.Heard>, heard: seq<H.Heard>)
    requires |heard| <= 1
    ensures H.WatchAfter(c, past + heard) ==
            if heard == [] then H.WatchAfter(c, past) else H.Heed(c, H.WatchAfter(c, past), heard[0]).0
  {
    hide OnReport, ScanGlobal;
    if heard == [] {
      assert past + heard == past;
    } else {
      assert (past + heard)[..|past + heard| - 1] == past;
    }
  }

  /** The watchdog of any run is the watchdog after what it heard: what holds of those histories holds of runs. */
  lemma {:induction false} RunsWatchIsHistory(c: Config, events: seq<Event>)
    ensures Run(c, events).watch == H.WatchAfter(c, HeardBy(c, events))
    decreases |events|
  {
    if events != [] {
      hide Step, HeardAt, H.WatchAfter, H.Heed;
      var front, e := events[..|events| - 1], events[|events| - 1];
      RunsWatchIsHistory(c, front);
      StepHeeds(c, Run(c, front), e);
      AfterMore(c, HeardBy(c, front), HeardAt(Run(c, front), e));
    }
  }

  /**
   Over every run: the watchdog stops a workflow for a bound, once as no guard fires
   twice, exactly when some report or write it heeded found the bound passed.
   */
  lemma {:induction false} RunStopsIff(c: Config, events: seq<Event>, wid: UnitId, g: Guard)
    ensures L.StopsFor(Run(c, events).sent, wid, g) <==> L.FoundPast(c, HeardBy(c, events), wid, g)
    decreases |events|
  {
    if events != [] {
      hide Step, HeardAt, H.WatchAfter, H.Heed, L.StopsFor, L.FoundPast, L.PastBound;
      var front, e := events[..|events| - 1], events[|events| - 1];
      var s := Run(c, front);
      var past, heard := HeardBy(c, front), HeardAt(s, e);
      RunStopsIff(c, front, wid, g);
      StepHeeds(c, s, e);
      RunsWatchIsHistory(c, front);
      if heard == [] {
        assert past + heard == past;
      } else {
        HeardOnce(c, s, past, heard, wid, g);
      }
    } else {
      NothingYet(c, wid, g);
    }
  }

  lemma HeardOnce(c: Config, s: State, past: seq<H.Heard>, heard: seq<H.Heard>, wid: UnitId, g: Guard)
    requires |heard| == 1 && s.watch == H.WatchAfter(c, past)
    requires L.StopsFor(s.sent, wid, g) <==> L.FoundPast(c, past, wid, g)
    ensures L.StopsFor(s.sent + H.Heed(c, s.watch, heard[0]).1, wid, g) <==> L.FoundPast(c, past + heard, wid, g)
  {
    hide H.WatchAfter, H.Heed, L.StopsFor, L.FoundPast, L.PastBound;
    L.StopsConcat(s.sent, H.Heed(c, s.watch, heard[0]).1, wid, g);
    L.HeedHandles(c, s.watch, heard[0], wid, g);
    L.FiredIsHistory(c, past, wid, g);
    L.FoundSnoc(c, past + heard, wid, g);
    assert (past + heard)[..|past + heard| - 1] == past && (past + heard)[|past + heard| - 1] == heard[0];
  }

  lemma NothingYet(c: Config, wid: UnitId, g: Guard)
    ensures !L.StopsFor([], wid, g) && !L.FoundPast(c, [], wid, g)
  {
  }

  /** An unnamed reporter breaks isolation: its looping text stops any workflow `b`, which reported nothing. */
  lemma UnnamedReporterStopsOthers(c: Config, b: UnitId, r: Report)
    requires c.controlDst == "*" && b != WATCHDOG && r.loops == Some(true)
    ensures Queued(Run(c, [Joins(b), Reports("", r), Watches(0.0)]), b,
                   Signal(WATCHDOG, "*", Controls(StopSignal, FromReport("", r))))
  {
    var e1, e2, e3 := [Joins(b)], [Joins(b), Reports("", r)], [Joins(b), Reports("", r), Watches(0.0)];
    assert e1[..0] == [] && e2[..1] == e1 && e3[..2] == e2;
    var s1 := Step(c, Run(c, []), Joins(b));
    assert Run(c, e1) == s1 && s1.queues[b] == [] && s1.queues[WATCHDOG] == [];
    var s2 := Step(c, s1, Reports("", r));
    assert Run(c, e2) == s2 && s2.queues[b] == [] && s2.queues[WATCHDOG] == [Signal("", WATCHDOG, Carries(r))];
    var o := Out("*", StopSignal, FromReport("", r));
    assert OnReport(c, s2.watch, "", r, 0.0, []).1 == [o];
    assert AllSent(Taken(s2.queues, WATCHDOG), [o]) == Sent(Taken(s2.queues, WATCHDOG), o);
  }
}
