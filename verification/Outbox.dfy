/** The outbox runner in batch mode with one worker: claim, handle in one
    transaction, acknowledge, release or dead-letter
    (packages/core/src/projections/async-projection-runner.ts,
    packages/postgres/src/outbox/pg-outbox-store.ts). */
module Outbox {
  import opened Wrappers

  datatype TopicFilter = All | Include(topics: set<string>) | Exclude(topics: set<string>)

  datatype Projection = Projection(name: string, filter: TopicFilter)

  /** An event of the log with the topic of its outbox row; its position is its
      index plus one. */
  datatype Event = Event(tenantId: string, topic: Option<string>, dismissed: bool)

  /** An unlocked outbox row. */
  datatype Row = Row(position: nat, attempts: nat)

  /** A committed run of a projection's handler on an event. */
  datatype Effect = Effect(projection: string, position: nat)

  predicate Matches(p: Projection, topic: Option<string>)
  {
    var t := if topic.None? then "" else topic.value;
    match p.filter
    case All => true
    case Include(ts) => t in ts
    case Exclude(ts) => t !in ts
  }

  /** An event without a topic counts as one with the empty topic; every event is
      taken by exactly one of the two filters on one set of topics, and by the one
      that includes them exactly if its topic is among them. */
  lemma TopicFilters(name: string, topics: set<string>, topic: Option<string>)
    ensures Matches(Projection(name, All), topic)
    ensures Matches(Projection(name, Include(topics)), topic) <==> !Matches(Projection(name, Exclude(topics)), topic)
    ensures Matches(Projection(name, Include(topics)), None) <==> Matches(Projection(name, Include(topics)), Some(""))
    ensures topic.Some? ==> (Matches(Projection(name, Include(topics)), topic) <==> topic.value in topics)
  {
  }

  type Key = (string, string)

  /** What a batch transaction changes besides the outbox: checkpoints by
      projection and tenant, and handler effects. */
  datatype Work = Work(cps: map<Key, nat>, effects: seq<Effect>)

  function Checkpoint(cps: map<Key, nat>, projection: string, tenant: string): nat
  {
    if (projection, tenant) in cps then cps[(projection, tenant)] else 0
  }

  /** The projections of one event, in order; bad names the handler runs that
      throw. */
  function HandleEvent(ps: seq<Projection>, e: Event, position: nat, bad: set<Effect>, w: Work): Option<Work>
  {
    if ps == [] then Some(w)
    else
      var before := HandleEvent(ps[..|ps| - 1], e, position, bad, w);
      var p := ps[|ps| - 1];
      if before.None? then None
      else if !Matches(p, e.topic) || position <= Checkpoint(before.value.cps, p.name, e.tenantId) then before
      else if Effect(p.name, position) in bad then None
      else Some(Work(before.value.cps[(p.name, e.tenantId) := position], before.value.effects + [Effect(p.name, position)]))
  }

  predicate InLog(log: seq<Event>, rows: seq<Row>) { forall i | 0 <= i < |rows| :: 1 <= rows[i].position <= |log| }

  /** The rows of one batch, in position order. */
  function HandleRows(ps: seq<Projection>, includeDismissed: bool, log: seq<Event>, rows: seq<Row>, bad: set<Effect>, w: Work): Option<Work>
    requires InLog(log, rows)
  {
    if rows == [] then Some(w)
    else
      var before := HandleRows(ps, includeDismissed, log, rows[..|rows| - 1], bad, w);
      var position := rows[|rows| - 1].position;
      var e := log[position - 1];
      if before.None? then None
      else if e.dismissed && !includeDismissed then before
      else HandleEvent(ps, e, position, bad, before.value)
  }

  // ---------------------------------------------------------------------------
  // Rounds
  // ---------------------------------------------------------------------------

  datatype Config = Config(projections: seq<Projection>, batchSize: nat, maxAttempts: nat, includeDismissed: bool)

  /** The outbox (unlocked rows in id order, which is position order, and the
      positions of rows left locked), dead letters, and the positions that were
      ever enqueued and acknowledged. */
  datatype State = State(log: seq<Event>, queue: seq<Row>, stuck: set<nat>, dead: set<nat>, enqueued: set<nat>, acked: set<nat>, work: Work)

  const INITIAL := State([], [], {}, {}, {}, {}, Work(map[], []))

  datatype Step =
    | AppendEvent(e: Event, enqueue: bool)
    | Dismiss(position: nat)
    | Round(bad: set<Effect>, released: bool)

  /** Claimed rows carry one attempt more. */
  function Bumped(rows: seq<Row>): (r: seq<Row>)
    ensures |r| == |rows| && forall i | 0 <= i < |r| :: r[i] == Row(rows[i].position, rows[i].attempts + 1)
  {
    seq(|rows|, i requires 0 <= i < |rows| => Row(rows[i].position, rows[i].attempts + 1))
  }

  function Least(a: nat, b: nat): nat { if a <= b then a else b }

  /** The rows of a claim that are handled, and those that are dead-lettered. */
  function Within(rows: seq<Row>, maxAttempts: nat): seq<Row>
  {
    if rows == [] then []
    else Within(rows[..|rows| - 1], maxAttempts) + if rows[|rows| - 1].attempts <= maxAttempts then [rows[|rows| - 1]] else []
  }

  function Positions(rows: seq<Row>): set<nat> { set i | 0 <= i < |rows| :: rows[i].position }

  function Exceeded(rows: seq<Row>, maxAttempts: nat): set<nat>
  {
    set i | 0 <= i < |rows| && rows[i].attempts > maxAttempts :: rows[i].position
  }

  lemma {:induction false} WithinMember(rows: seq<Row>, maxAttempts: nat, r: Row)
    ensures r in Within(rows, maxAttempts) <==> r in rows && r.attempts <= maxAttempts
  {
    if rows != [] { WithinMember(rows[..|rows| - 1], maxAttempts, r); }
  }

  lemma WithinInLog(log: seq<Event>, rows: seq<Row>, maxAttempts: nat)
    requires InLog(log, rows)
    ensures InLog(log, Within(rows, maxAttempts))
  {
    var within := Within(rows, maxAttempts);
    hide Within;
    forall i | 0 <= i < |within| ensures 1 <= within[i].position <= |log| { WithinMember(rows, maxAttempts, within[i]); }
  }

  function InsertRow(sorted: seq<Row>, r: Row): seq<Row>
  {
    var n := |sorted| - 1;
    if sorted == [] || sorted[n].position <= r.position then sorted + [r] else InsertRow(sorted[..n], r) + [sorted[n]]
  }

  /** The events of a batch are loaded in position order, whatever the order of its rows. */
  function ByPosition(rows: seq<Row>): seq<Row>
  {
    if rows == [] then [] else InsertRow(ByPosition(rows[..|rows| - 1]), rows[|rows| - 1])
  }

  lemma {:induction false} InsertMembers(sorted: seq<Row>, r: Row, x: Row)
    ensures x in InsertRow(sorted, r) <==> x in sorted || x == r
  {
    var n := |sorted| - 1;
    if sorted != [] && sorted[n].position > r.position {
      InsertMembers(sorted[..n], r, x);
      assert sorted == sorted[..n] + [sorted[n]];
    }
  }

  lemma {:induction false} SameMembers(rows: seq<Row>, r: Row)
    ensures r in ByPosition(rows) <==> r in rows
  {
    if rows != [] {
      var n := |rows| - 1;
      SameMembers(rows[..n], r);
      InsertMembers(ByPosition(rows[..n]), rows[n], r);
      assert rows == rows[..n] + [rows[n]];
    }
  }

  lemma ByPositionFacts(log: seq<Event>, rows: seq<Row>)
    ensures InLog(log, rows) ==> InLog(log, ByPosition(rows))
    ensures Positions(ByPosition(rows)) == Positions(rows)
  {
    var q := ByPosition(rows);
    hide ByPosition;
    forall i | 0 <= i < |q| ensures q[i] in rows { SameMembers(rows, q[i]); }
    forall i | 0 <= i < |rows| ensures rows[i] in q { SameMembers(rows, rows[i]); }
  }

  /** claimBatch: the first unlocked rows, each with one attempt more. */
  function Claimed(c: Config, s: State): seq<Row> { Bumped(s.queue[..Least(c.batchSize, |s.queue|)]) }

  function Unclaimed(c: Config, s: State): seq<Row> { s.queue[Least(c.batchSize, |s.queue|)..] }

  /** The rows of a claim that are handled, in the order of their events: those
      within their attempts. */
  function Handled(c: Config, s: State): (r: seq<Row>)
    requires InLog(s.log, s.queue)
    ensures InLog(s.log, r)
  {
    WithinInLog(s.log, Claimed(c, s), c.maxAttempts);
    ByPositionFacts(s.log, Within(Claimed(c, s), c.maxAttempts));
    ByPosition(Within(Claimed(c, s), c.maxAttempts))
  }

  /** The batch transaction; None is a failure, which rolls it back. */
  function Processed(c: Config, s: State, bad: set<Effect>): Option<Work>
    requires InLog(s.log, s.queue)
  {
    HandleRows(c.projections, c.includeDismissed, s.log, Handled(c, s), bad, s.work)
  }

  /** One pass of the runner's loop: claim in one transaction, process the batch in
      another, and after a failure release in a third; released is false when the
      worker stops before the release. */
  function RoundOf(c: Config, s: State, bad: set<Effect>, released: bool): State
    requires InLog(s.log, s.queue)
  {
    var done := Processed(c, s, bad);
    if done.Some? then
      s.(queue := Unclaimed(c, s), work := done.value,
         dead := s.dead + Exceeded(Claimed(c, s), c.maxAttempts), acked := s.acked + Positions(Handled(c, s)))
    else if released then s.(queue := Claimed(c, s) + Unclaimed(c, s))
    else s.(queue := Unclaimed(c, s), stuck := s.stuck + Positions(Claimed(c, s)))
  }

  function Next(c: Config, s: State, step: Step): (r: State)
    requires InLog(s.log, s.queue)
    ensures InLog(r.log, r.queue)
  {
    match step
    case AppendEvent(e, enqueue) =>
      if enqueue then s.(log := s.log + [e], queue := s.queue + [Row(|s.log| + 1, 0)], enqueued := s.enqueued + {|s.log| + 1})
      else s.(log := s.log + [e])
    case Dismiss(p) => if 1 <= p <= |s.log| then s.(log := s.log[p - 1 := s.log[p - 1].(dismissed := true)]) else s
    case Round(bad, released) => RoundOf(c, s, bad, released)
  }

  function After(c: Config, s: State, steps: seq<Step>): (r: State)
    requires InLog(s.log, s.queue)
    ensures InLog(r.log, r.queue)
  {
    if steps == [] then s else Next(c, After(c, s, steps[..|steps| - 1]), steps[|steps| - 1])
  }

  // ---------------------------------------------------------------------------
  // What a batch does when its positions are ahead of every checkpoint
  // ---------------------------------------------------------------------------

  predicate DistinctNames(ps: seq<Projection>) { forall i, j | 0 <= i < j < |ps| :: ps[i].name != ps[j].name }

  /** Some projection of that name takes the topic. */
  predicate Wanted(ps: seq<Projection>, name: string, topic: Option<string>)
  {
    exists i :: 0 <= i < |ps| && ps[i].name == name && Matches(ps[i], topic)
  }

  function Runs(effects: seq<Effect>, name: string, position: nat): nat { multiset(effects)[Effect(name, position)] }

  lemma OneMoreRun(effects: seq<Effect>, e: Effect)
    ensures forall n, p :: Runs(effects + [e], n, p) == Runs(effects, n, p) + if e == Effect(n, p) then 1 else 0
  {
    assert multiset(effects + [e]) == multiset(effects) + multiset{e};
  }

  /** The projection takes the topic and its checkpoint is behind the position. */
  predicate Ahead(ps: seq<Projection>, cps: map<Key, nat>, name: string, e: Event, position: nat)
  {
    Wanted(ps, name, e.topic) && position > Checkpoint(cps, name, e.tenantId)
  }

  /** Handling an event runs exactly the projections that take its topic and whose
      checkpoint is behind it, once each, and moves those checkpoints to it. A
      projection with a checkpoint at or past the event is passed over. */
  lemma {:induction false} EventHandledExactly(ps: seq<Projection>, e: Event, position: nat, bad: set<Effect>, w: Work)
    requires DistinctNames(ps) && HandleEvent(ps, e, position, bad, w).Some?
    ensures var after := HandleEvent(ps, e, position, bad, w).value;
            (forall name, t :: Checkpoint(after.cps, name, t) ==
               if t == e.tenantId && Ahead(ps, w.cps, name, e, position) then position else Checkpoint(w.cps, name, t)) &&
            (forall name, p :: Runs(after.effects, name, p) ==
               Runs(w.effects, name, p) + if p == position && Ahead(ps, w.cps, name, e, position) then 1 else 0)
  {
    if ps != [] {
      var n := |ps| - 1;
      var init, p := ps[..n], ps[n];
      EventHandledExactly(init, e, position, bad, w);
      var before := HandleEvent(init, e, position, bad, w).value;
      WantedLast(ps, e.topic);
      NotWantedBefore(ps, e.topic);
      OneMoreRun(before.effects, Effect(p.name, position));
      var next := HandleEvent(ps, e, position, bad, w).value;
      assert next == if !Matches(p, e.topic) || position <= Checkpoint(before.cps, p.name, e.tenantId) then before
                     else Work(before.cps[(p.name, e.tenantId) := position], before.effects + [Effect(p.name, position)]);
      hide HandleEvent, Wanted, Matches, Runs, DistinctNames;
    }
  }

  lemma WantedLast(ps: seq<Projection>, topic: Option<string>)
    requires ps != []
    ensures forall name :: Wanted(ps, name, topic) <==> Wanted(ps[..|ps| - 1], name, topic) || (ps[|ps| - 1].name == name && Matches(ps[|ps| - 1], topic))
  {
    var n := |ps| - 1;
    forall name ensures Wanted(ps, name, topic) <==> Wanted(ps[..n], name, topic) || (ps[n].name == name && Matches(ps[n], topic)) {
      if Wanted(ps[..n], name, topic) {
        var i :| 0 <= i < n && ps[..n][i].name == name && Matches(ps[..n][i], topic);
        assert ps[i] == ps[..n][i];
      }
      if Wanted(ps, name, topic) && !(ps[n].name == name && Matches(ps[n], topic)) {
        var i :| 0 <= i < |ps| && ps[i].name == name && Matches(ps[i], topic);
        assert ps[..n][i] == ps[i];
      }
    }
  }

  lemma NotWantedBefore(ps: seq<Projection>, topic: Option<string>)
    requires ps != [] && DistinctNames(ps)
    ensures DistinctNames(ps[..|ps| - 1]) && !Wanted(ps[..|ps| - 1], ps[|ps| - 1].name, topic)
  {
  }

  /** The handled rows in a batch that show a position. */
  predicate Shown(includeDismissed: bool, log: seq<Event>, rows: seq<Row>, p: nat)
    requires InLog(log, rows)
  {
    exists i :: 0 <= i < |rows| && rows[i].position == p && (includeDismissed || !log[p - 1].dismissed)
  }

  predicate Increasing(rows: seq<Row>) { forall i, j | 0 <= i < j < |rows| :: rows[i].position < rows[j].position }

  predicate AllAfter(rows: seq<Row>, bound: nat) { forall i | 0 <= i < |rows| :: bound < rows[i].position }

  function LastPosition(rows: seq<Row>, bound: nat): nat { if rows == [] then bound else rows[|rows| - 1].position }

  /** Checkpoints do not go back, and those that move stop at the bound. */
  ghost predicate CpsMove(a: map<Key, nat>, b: map<Key, nat>, bound: nat)
  {
    forall name, t :: Checkpoint(a, name, t) <= Checkpoint(b, name, t) && (Checkpoint(b, name, t) == Checkpoint(a, name, t) || Checkpoint(b, name, t) <= bound)
  }

  /** A batch runs, for each event it shows, exactly the projections that take its
      topic and whose checkpoint was behind it when the batch began, once each. */
  lemma {:induction false} RowsHandledExactly(ps: seq<Projection>, dismissedToo: bool, log: seq<Event>, rows: seq<Row>, bad: set<Effect>, w: Work)
    requires DistinctNames(ps) && InLog(log, rows) && Increasing(rows)
    requires HandleRows(ps, dismissedToo, log, rows, bad, w).Some?
    ensures var after := HandleRows(ps, dismissedToo, log, rows, bad, w).value;
            CpsMove(w.cps, after.cps, LastPosition(rows, 0)) &&
            forall name, p :: Runs(after.effects, name, p) ==
              Runs(w.effects, name, p) + if Shown(dismissedToo, log, rows, p) && Ahead(ps, w.cps, name, log[p - 1], p) then 1 else 0
  {
    if rows != [] {
      var n := |rows| - 1;
      var init, position := rows[..n], rows[n].position;
      var e := log[position - 1];
      RowsHandledExactly(ps, dismissedToo, log, init, bad, w);
      var before := HandleRows(ps, dismissedToo, log, init, bad, w).value;
      var after := HandleRows(ps, dismissedToo, log, rows, bad, w).value;
      ShownLast(dismissedToo, log, rows);
      assert LastPosition(init, 0) < position;
      assert if e.dismissed && !dismissedToo then after == before else HandleEvent(ps, e, position, bad, before) == Some(after);
      hide HandleRows, Shown, Runs, DistinctNames, HandleEvent, Increasing, InLog, Wanted;
      if !e.dismissed || dismissedToo { EventHandledExactly(ps, e, position, bad, before); }
    }
  }

  /** A batch whose positions are ahead of every checkpoint runs every handler
      that takes its live events, once each. */
  lemma RowsHandledOnce(ps: seq<Projection>, dismissedToo: bool, log: seq<Event>, rows: seq<Row>, bad: set<Effect>, w: Work, bound: nat)
    requires DistinctNames(ps) && InLog(log, rows) && Increasing(rows) && AllAfter(rows, bound) && CpsAtMost(w.cps, bound)
    requires HandleRows(ps, dismissedToo, log, rows, bad, w).Some?
    ensures var after := HandleRows(ps, dismissedToo, log, rows, bad, w).value;
            CpsAtMost(after.cps, LastPosition(rows, bound)) &&
            forall name, p :: Runs(after.effects, name, p) ==
              Runs(w.effects, name, p) + if Shown(dismissedToo, log, rows, p) && Wanted(ps, name, log[p - 1].topic) then 1 else 0
  {
    RowsHandledExactly(ps, dismissedToo, log, rows, bad, w);
    var after := HandleRows(ps, dismissedToo, log, rows, bad, w).value;
    assert forall p: nat | Shown(dismissedToo, log, rows, p) :: p > bound;
    assert rows != [] ==> LastPosition(rows, 0) == LastPosition(rows, bound) > bound;
    hide HandleRows, Shown, Runs, DistinctNames, Increasing, InLog, Wanted, Checkpoint;
  }

  /** Every checkpoint is at most the bound. */
  ghost predicate CpsAtMost(cps: map<Key, nat>, bound: nat)
  {
    forall name, t :: Checkpoint(cps, name, t) <= bound
  }

  lemma ShownLast(dismissedToo: bool, log: seq<Event>, rows: seq<Row>)
    requires InLog(log, rows) && rows != [] && Increasing(rows)
    ensures var n := |rows| - 1;
            !Shown(dismissedToo, log, rows[..n], rows[n].position) &&
            forall p :: Shown(dismissedToo, log, rows, p) <==>
              Shown(dismissedToo, log, rows[..n], p) || (p == rows[n].position && (dismissedToo || !log[p - 1].dismissed))
  {
    var n := |rows| - 1;
    forall p ensures Shown(dismissedToo, log, rows, p) <==>
              Shown(dismissedToo, log, rows[..n], p) || (p == rows[n].position && (dismissedToo || !log[p - 1].dismissed))
    {
      if Shown(dismissedToo, log, rows[..n], p) {
        var i :| 0 <= i < n && rows[..n][i].position == p && (dismissedToo || !log[p - 1].dismissed);
        assert rows[i] == rows[..n][i];
      }
      if Shown(dismissedToo, log, rows, p) && !(p == rows[n].position && (dismissedToo || !log[p - 1].dismissed)) {
        var i :| 0 <= i < |rows| && rows[i].position == p && (dismissedToo || !log[p - 1].dismissed);
        assert rows[..n][i] == rows[i];
      }
    }
  }

  // ---------------------------------------------------------------------------
  // What every run keeps
  // ---------------------------------------------------------------------------

  /** Every row ever enqueued is in exactly one place. */
  ghost predicate Partitioned(s: State)
  {
    s.enqueued == Positions(s.queue) + s.stuck + s.dead + s.acked &&
    Positions(s.queue) !! s.stuck && Positions(s.queue) !! s.dead && Positions(s.queue) !! s.acked &&
    s.stuck !! s.dead && s.stuck !! s.acked && s.dead !! s.acked &&
    forall p | p in s.enqueued :: 1 <= p <= |s.log|
  }

  /** The handler runs committed for one projection and one position. */
  predicate RunsRight(c: Config, s: State, name: string, p: nat)
  {
    Runs(s.work.effects, name, p) <= 1 &&
    (p !in s.acked ==> Runs(s.work.effects, name, p) == 0) &&
    (p in s.acked && 1 <= p <= |s.log| && !Wanted(c.projections, name, s.log[p - 1].topic) ==> Runs(s.work.effects, name, p) == 0) &&
    (p in s.acked && 1 <= p <= |s.log| && Wanted(c.projections, name, s.log[p - 1].topic) && (c.includeDismissed || !s.log[p - 1].dismissed) ==>
       Runs(s.work.effects, name, p) == 1)
  }

  /** The key of the delivery argument: the queue is ahead of every checkpoint. */
  ghost predicate QueueAhead(s: State)
  {
    CpsAtMost(s.work.cps, |s.log|) &&
    forall i | 0 <= i < |s.queue| :: s.queue[i].position > 0 && CpsAtMost(s.work.cps, s.queue[i].position - 1)
  }

  ghost predicate Inv(c: Config, s: State)
  {
    InLog(s.log, s.queue) && Increasing(s.queue) && QueueAhead(s) && Partitioned(s) &&
    forall name, p :: RunsRight(c, s, name, p)
  }

  lemma BumpedSame(log: seq<Event>, rows: seq<Row>)
    ensures Positions(Bumped(rows)) == Positions(rows)
    ensures Increasing(rows) ==> Increasing(Bumped(rows))
    ensures InLog(log, rows) ==> InLog(log, Bumped(rows))
  {
    forall p ensures p in Positions(Bumped(rows)) <==> p in Positions(rows) {
      if p in Positions(rows) {
        var i :| 0 <= i < |rows| && rows[i].position == p;
        assert Bumped(rows)[i].position == p;
      }
    }
  }

  lemma SplitRows(rows: seq<Row>, n: nat)
    requires Increasing(rows) && n <= |rows|
    ensures Positions(rows) == Positions(rows[..n]) + Positions(rows[n..]) && Positions(rows[..n]) !! Positions(rows[n..])
    ensures Increasing(rows[..n]) && Increasing(rows[n..])
    ensures forall p, q | p in Positions(rows[..n]) && q in Positions(rows[n..]) :: p < q
  {
    forall p ensures p in Positions(rows) <==> p in Positions(rows[..n]) || p in Positions(rows[n..]) {
      if p in Positions(rows) {
        var i :| 0 <= i < |rows| && rows[i].position == p;
        if i < n { assert rows[..n][i].position == p; } else { assert rows[n..][i - n].position == p; }
      }
    }
  }

  lemma {:induction false} WithinIncreasing(rows: seq<Row>, maxAttempts: nat)
    requires Increasing(rows)
    ensures Increasing(Within(rows, maxAttempts))
  {
    if rows != [] {
      var n := |rows| - 1;
      WithinIncreasing(rows[..n], maxAttempts);
      var within := Within(rows[..n], maxAttempts);
      forall i | 0 <= i < |within| ensures within[i].position < rows[n].position { WithinMember(rows[..n], maxAttempts, within[i]); }
    }
  }

  /** A claim falls apart into the handled and the dead-lettered rows. */
  lemma WithinPositions(rows: seq<Row>, maxAttempts: nat)
    requires Increasing(rows)
    ensures Positions(rows) == Positions(Within(rows, maxAttempts)) + Exceeded(rows, maxAttempts)
    ensures Positions(Within(rows, maxAttempts)) !! Exceeded(rows, maxAttempts)
  {
    var within := Within(rows, maxAttempts);
    hide Within;
    forall p ensures p in Positions(within) ==> p in Positions(rows) && p !in Exceeded(rows, maxAttempts) {
      if p in Positions(within) {
        var i :| 0 <= i < |within| && within[i].position == p;
        WithinMember(rows, maxAttempts, within[i]);
        var k :| 0 <= k < |rows| && rows[k] == within[i];
      }
    }
    forall p ensures p in Positions(rows) ==> p in Positions(within) || p in Exceeded(rows, maxAttempts) {
      if p in Positions(rows) {
        var k :| 0 <= k < |rows| && rows[k].position == p;
        WithinMember(rows, maxAttempts, rows[k]);
        if rows[k].attempts <= maxAttempts { var i :| 0 <= i < |within| && within[i] == rows[k]; }
      }
    }
  }

  /** The checkpoint bound that the first row of the queue gives. */
  function Bound(s: State): nat { if s.queue == [] then |s.log| else if s.queue[0].position > 0 then s.queue[0].position - 1 else 0 }

  /** A successful batch: what is acknowledged has been handled. */
  lemma SuccessDelivers(c: Config, s: State, rows: seq<Row>, bad: set<Effect>, bound: nat, after: State)
    requires DistinctNames(c.projections) && InLog(s.log, rows) && Increasing(rows) && AllAfter(rows, bound) && CpsAtMost(s.work.cps, bound)
    requires HandleRows(c.projections, c.includeDismissed, s.log, rows, bad, s.work) == Some(after.work)
    requires Positions(rows) !! s.acked && after.acked == s.acked + Positions(rows) && after.log == s.log
    requires forall name, p :: RunsRight(c, s, name, p)
    ensures forall name, p :: RunsRight(c, after, name, p)
    ensures CpsAtMost(after.work.cps, LastPosition(rows, bound))
  {
    RowsHandledOnce(c.projections, c.includeDismissed, s.log, rows, bad, s.work, bound);
    hide HandleRows, Wanted, Increasing, AllAfter, CpsAtMost, Runs, DistinctNames;
    forall name, p ensures RunsRight(c, after, name, p) {
      assert RunsRight(c, s, name, p);
      ShownPosition(c.includeDismissed, s.log, rows, p);
      hide Shown, Positions;
    }
  }

  lemma ShownPosition(dismissedToo: bool, log: seq<Event>, rows: seq<Row>, p: nat)
    requires InLog(log, rows)
    ensures p in Positions(rows) ==> 1 <= p <= |log|
    ensures Shown(dismissedToo, log, rows, p) <==> p in Positions(rows) && (dismissedToo || !log[p - 1].dismissed)
  {
  }

  /** Rows from the head of the queue are ahead of every checkpoint. */
  lemma HeadAhead(s: State, n: nat, rows: seq<Row>)
    requires QueueAhead(s) && Increasing(s.queue) && n <= |s.queue| && Positions(rows) <= Positions(s.queue[..n])
    ensures AllAfter(rows, Bound(s)) && CpsAtMost(s.work.cps, Bound(s))
  {
    hide CpsAtMost;
    forall i | 0 <= i < |rows| ensures Bound(s) < rows[i].position {
      assert rows[i].position in Positions(rows);
      var k :| 0 <= k < |s.queue[..n]| && s.queue[..n][k].position == rows[i].position;
      assert s.queue[k] == s.queue[..n][k];
    }
  }

  /** The rest of the queue is ahead of the checkpoints that a batch leaves. */
  lemma RestAhead(s: State, n: nat, rows: seq<Row>, t: State)
    requires QueueAhead(s) && InLog(s.log, s.queue) && Increasing(s.queue) && n <= |s.queue| && Positions(rows) <= Positions(s.queue[..n])
    requires t.log == s.log && t.queue == s.queue[n..] && CpsAtMost(t.work.cps, LastPosition(rows, Bound(s)))
    ensures QueueAhead(t)
  {
    var last := LastPosition(rows, Bound(s));
    if rows != [] {
      assert last in Positions(rows);
      var k :| 0 <= k < |s.queue[..n]| && s.queue[..n][k].position == last;
      assert s.queue[k].position == last && k < n;
    }
    hide Positions;
    forall i | 0 <= i < |t.queue| ensures t.queue[i].position > last {
      assert t.queue[i] == s.queue[n + i];
    }
    hide Increasing, Bound, LastPosition;
  }

  /** A claim, its handled rows and the rest of the queue. */
  lemma ClaimParts(c: Config, s: State)
    requires InLog(s.log, s.queue) && Increasing(s.queue)
    ensures Increasing(Handled(c, s)) && Increasing(Unclaimed(c, s)) && InLog(s.log, Unclaimed(c, s))
    ensures Positions(s.queue) == Positions(Handled(c, s)) + Exceeded(Claimed(c, s), c.maxAttempts) + Positions(Unclaimed(c, s))
    ensures Positions(Handled(c, s)) !! Exceeded(Claimed(c, s), c.maxAttempts)
    ensures Positions(Handled(c, s)) !! Positions(Unclaimed(c, s)) && Exceeded(Claimed(c, s), c.maxAttempts) !! Positions(Unclaimed(c, s))
    ensures Positions(Handled(c, s)) <= Positions(s.queue[..Least(c.batchSize, |s.queue|)])
  {
    var n := Least(c.batchSize, |s.queue|);
    SplitRows(s.queue, n);
    BumpedSame(s.log, s.queue[..n]);
    assert InLog(s.log, s.queue[n..]);
    hide Within, Exceeded, Positions, Bumped, Increasing, Handled, InLog;
    WithinPositions(Claimed(c, s), c.maxAttempts);
    InOrder(c, s, Within(Claimed(c, s), c.maxAttempts));
  }

  /** Rows that are claimed in position order are handled in the order of the claim. */
  lemma InOrder(c: Config, s: State, within: seq<Row>)
    requires InLog(s.log, s.queue) && Increasing(Claimed(c, s)) && within == Within(Claimed(c, s), c.maxAttempts)
    ensures Handled(c, s) == within && Increasing(within)
  {
    hide Within, ByPosition, Increasing, Claimed;
    WithinIncreasing(Claimed(c, s), c.maxAttempts);
    AlreadySorted(within);
  }

  lemma {:induction false} AlreadySorted(rows: seq<Row>)
    requires Increasing(rows)
    ensures ByPosition(rows) == rows
  {
    if rows != [] { AlreadySorted(rows[..|rows| - 1]); }
  }

  predicate DistinctPositions(rows: seq<Row>) { forall i, j | 0 <= i < j < |rows| :: rows[i].position != rows[j].position }

  lemma {:induction false} InsertSorted(sorted: seq<Row>, r: Row)
    requires Increasing(sorted) && forall i | 0 <= i < |sorted| :: sorted[i].position != r.position
    ensures Increasing(InsertRow(sorted, r))
  {
    var n := |sorted| - 1;
    if sorted != [] && sorted[n].position > r.position {
      InsertSorted(sorted[..n], r);
      var q := InsertRow(sorted[..n], r);
      forall i | 0 <= i < |q| ensures q[i].position < sorted[n].position {
        InsertMembers(sorted[..n], r, q[i]);
      }
    }
  }

  lemma {:induction false} Sorts(rows: seq<Row>)
    requires DistinctPositions(rows)
    ensures Increasing(ByPosition(rows))
  {
    if rows != [] {
      var n := |rows| - 1;
      Sorts(rows[..n]);
      var q := ByPosition(rows[..n]);
      forall i | 0 <= i < |q| ensures q[i].position != rows[n].position { SameMembers(rows[..n], q[i]); }
      InsertSorted(q, rows[n]);
    }
  }

  lemma AssembleInv(c: Config, s: State)
    requires InLog(s.log, s.queue) && Increasing(s.queue) && QueueAhead(s) && Partitioned(s)
    requires forall name, p :: RunsRight(c, s, name, p)
    ensures Inv(c, s)
  {
  }

  lemma InvParts(c: Config, s: State)
    requires Inv(c, s)
    ensures InLog(s.log, s.queue) && Increasing(s.queue) && QueueAhead(s) && Partitioned(s)
    ensures forall name, p :: RunsRight(c, s, name, p)
  {
  }

  /** A successful round. */
  lemma SuccessKeepsInv(c: Config, s: State, bad: set<Effect>, t: State)
    requires DistinctNames(c.projections) && Inv(c, s)
    requires HandleRows(c.projections, c.includeDismissed, s.log, Handled(c, s), bad, s.work) == Some(t.work)
    requires t.log == s.log && t.queue == Unclaimed(c, s) && t.stuck == s.stuck && t.enqueued == s.enqueued
    requires t.dead == s.dead + Exceeded(Claimed(c, s), c.maxAttempts) && t.acked == s.acked + Positions(Handled(c, s))
    ensures Inv(c, t)
  {
    hide *;
    var n := Least(c.batchSize, |s.queue|);
    InvParts(c, s);
    ClaimSame(c, s);
    ClaimParts(c, s);
    LeastAtMost(c.batchSize, |s.queue|);
    HeadAhead(s, n, Handled(c, s));
    PartitionMoves(s, t, Positions(Handled(c, s)), Exceeded(Claimed(c, s), c.maxAttempts), Positions(Unclaimed(c, s)));
    SuccessDelivers(c, s, Handled(c, s), bad, Bound(s), t);
    RestAhead(s, n, Handled(c, s), t);
    AssembleInv(c, t);
  }

  lemma LeastAtMost(a: nat, b: nat)
    ensures Least(a, b) <= b
  {
  }

  lemma PartitionMoves(s: State, t: State, handled: set<nat>, exceeded: set<nat>, rest: set<nat>)
    requires Partitioned(s) && Positions(s.queue) == handled + exceeded + rest && Positions(t.queue) == rest
    requires handled !! exceeded && handled !! rest && exceeded !! rest
    requires t.log == s.log && t.stuck == s.stuck && t.enqueued == s.enqueued
    requires t.dead == s.dead + exceeded && t.acked == s.acked + handled
    ensures Partitioned(t) && handled !! s.acked
  {
    hide Positions;
  }

  /** Rows with the same positions in the same order. */
  predicate SamePositions(a: seq<Row>, b: seq<Row>) { |a| == |b| && forall i | 0 <= i < |a| :: a[i].position == b[i].position }

  lemma SameFacts(log: seq<Event>, a: seq<Row>, b: seq<Row>)
    requires SamePositions(a, b)
    ensures Positions(a) == Positions(b) && (Increasing(a) ==> Increasing(b)) && (InLog(log, a) ==> InLog(log, b))
  {
    forall p ensures p in Positions(a) <==> p in Positions(b) {
      if p in Positions(a) { var i :| 0 <= i < |a| && a[i].position == p; assert b[i].position == p; }
      if p in Positions(b) { var i :| 0 <= i < |b| && b[i].position == p; assert a[i].position == p; }
    }
  }

  /** A failed round that releases its rows changes only their attempts. */
  lemma FailureKeepsInv(c: Config, s: State, t: State)
    requires Inv(c, s) && SamePositions(s.queue, t.queue) && t == s.(queue := t.queue)
    ensures Inv(c, t)
  {
    SameFacts(s.log, s.queue, t.queue);
    hide CpsAtMost, Positions, Increasing, RunsRight;
    forall name, p ensures RunsRight(c, t, name, p) { assert RunsRight(c, s, name, p); RunsRightSame(c, s, t, name, p); }
    assert QueueAhead(t) by {
      forall i | 0 <= i < |t.queue| ensures t.queue[i].position > 0 && CpsAtMost(t.work.cps, t.queue[i].position - 1) {
        assert s.queue[i].position == t.queue[i].position;
      }
    }
  }

  lemma RunsRightSame(c: Config, s: State, t: State, name: string, p: nat)
    requires RunsRight(c, s, name, p) && t.work.effects == s.work.effects && t.acked == s.acked && |s.log| <= |t.log|
    requires p in s.acked ==> 1 <= p <= |s.log|
    requires forall i | 0 <= i < |s.log| :: t.log[i].topic == s.log[i].topic && (s.log[i].dismissed ==> t.log[i].dismissed)
    ensures RunsRight(c, t, name, p)
  {
  }

  /** A worker that stops leaves its rows locked. */
  lemma StopKeepsInv(c: Config, s: State, n: nat, t: State)
    requires Inv(c, s) && n <= |s.queue| && t == s.(queue := s.queue[n..], stuck := s.stuck + Positions(s.queue[..n]))
    ensures Inv(c, t)
  {
    SplitRows(s.queue, n);
    hide CpsAtMost, Positions, Increasing, RunsRight;
    forall name, p ensures RunsRight(c, t, name, p) { assert RunsRight(c, s, name, p); RunsRightSame(c, s, t, name, p); }
    assert forall i | 0 <= i < |t.queue| :: t.queue[i] == s.queue[n + i];
  }

  lemma RoundKeepsInv(c: Config, s: State, bad: set<Effect>, released: bool)
    requires DistinctNames(c.projections) && Inv(c, s)
    ensures Inv(c, RoundOf(c, s, bad, released))
  {
    var t := RoundOf(c, s, bad, released);
    ClaimSame(c, s);
    hide Inv, DistinctNames, HandleRows, Handled, Exceeded, Positions, Claimed, Unclaimed;
    if Processed(c, s, bad).Some? {
      assert HandleRows(c.projections, c.includeDismissed, s.log, Handled(c, s), bad, s.work) == Some(t.work);
      SuccessKeepsInv(c, s, bad, t);
    } else if released {
      FailureKeepsInv(c, s, t);
    } else {
      StopKeepsInv(c, s, Least(c.batchSize, |s.queue|), t);
    }
  }

  lemma ClaimSame(c: Config, s: State)
    ensures SamePositions(s.queue, Claimed(c, s) + Unclaimed(c, s))
    ensures Unclaimed(c, s) == s.queue[Least(c.batchSize, |s.queue|)..]
    ensures Positions(Claimed(c, s)) == Positions(s.queue[..Least(c.batchSize, |s.queue|)])
  {
    BumpedSame(s.log, s.queue[..Least(c.batchSize, |s.queue|)]);
  }

  lemma AppendKeepsInv(c: Config, s: State, e: Event, enqueue: bool)
    requires Inv(c, s)
    ensures Inv(c, Next(c, s, AppendEvent(e, enqueue)))
  {
    var t := Next(c, s, AppendEvent(e, enqueue));
    var p := |s.log| + 1;
    if enqueue {
      var row := Row(p, 0);
      assert t.queue == s.queue + [row];
      forall q ensures q in Positions(t.queue) <==> q in Positions(s.queue) || q == p {
        if q in Positions(s.queue) {
          var i :| 0 <= i < |s.queue| && s.queue[i].position == q;
          assert t.queue[i].position == q;
        }
        assert t.queue[|s.queue|].position == p;
      }
      assert p !in s.enqueued;
    }
    hide Positions, RunsRight, Wanted;
    forall name, q ensures RunsRight(c, t, name, q) { assert RunsRight(c, s, name, q); RunsRightSame(c, s, t, name, q); }
  }

  lemma DismissKeepsInv(c: Config, s: State, p: nat)
    requires Inv(c, s)
    ensures Inv(c, Next(c, s, Dismiss(p)))
  {
    var t := Next(c, s, Dismiss(p));
    hide RunsRight, Wanted, CpsAtMost;
    forall name, q ensures RunsRight(c, t, name, q) { assert RunsRight(c, s, name, q); RunsRightSame(c, s, t, name, q); }
  }

  /** What a dismissal changes, and that from then on no round runs a handler on the
      event, unless the runner includes dismissed events. */
  lemma DismissedNotRun(c: Config, s: State, p: nat, bad: set<Effect>, released: bool, name: string)
    requires DistinctNames(c.projections) && InLog(s.log, s.queue) && DistinctPositions(s.queue) && 1 <= p <= |s.log|
    ensures var t := Next(c, s, Dismiss(p));
            t == s.(log := t.log) && |t.log| == |s.log| && t.log[p - 1].dismissed &&
            t.log[p - 1].topic == s.log[p - 1].topic && t.log[p - 1].tenantId == s.log[p - 1].tenantId &&
            (forall i | 0 <= i < |s.log| && i != p - 1 :: t.log[i] == s.log[i]) &&
            (!c.includeDismissed ==> Runs(RoundOf(c, t, bad, released).work.effects, name, p) == Runs(s.work.effects, name, p))
  {
    var t := Next(c, s, Dismiss(p));
    if Processed(c, t, bad).Some? {
      RoundHandlesExactly(c, t, bad, released, name, p);
    } else {
      hide Processed, Runs;
    }
  }

  lemma {:induction false} RunKeepsInv(c: Config, s: State, steps: seq<Step>)
    requires DistinctNames(c.projections) && Inv(c, s)
    ensures Inv(c, After(c, s, steps))
  {
    if steps != [] {
      var before := After(c, s, steps[..|steps| - 1]);
      RunKeepsInv(c, s, steps[..|steps| - 1]);
      hide Inv, RoundOf;
      match steps[|steps| - 1]
      case AppendEvent(e, enqueue) => AppendKeepsInv(c, before, e, enqueue);
      case Dismiss(p) => DismissKeepsInv(c, before, p);
      case Round(bad, released) => RoundKeepsInv(c, before, bad, released);
    }
  }

  lemma InitialInv(c: Config)
    ensures Inv(c, INITIAL)
  {
  }

  /** Outbox delivery: after any run of appends, dismissals and rounds, whatever
      handlers fail and wherever the worker stops, every row is in exactly one
      place (queued, left locked, dead-lettered or acknowledged), and the handlers
      that have committed for it are: none unless it is acknowledged; for an
      acknowledged event that is not dismissed, exactly the projections that take
      its topic, exactly once each. */
  lemma OutboxDelivers(c: Config, steps: seq<Step>, name: string, p: nat)
    requires DistinctNames(c.projections)
    ensures var s := After(c, INITIAL, steps);
            Partitioned(s) && (p in s.acked ==> p in s.enqueued && 1 <= p <= |s.log|) &&
            (p !in s.acked ==> Runs(s.work.effects, name, p) == 0) &&
            (p in s.acked && !s.log[p - 1].dismissed ==>
               Runs(s.work.effects, name, p) == if Wanted(c.projections, name, s.log[p - 1].topic) then 1 else 0)
  {
    InitialInv(c);
    RunKeepsInv(c, INITIAL, steps);
    assert RunsRight(c, After(c, INITIAL, steps), name, p);
  }

  lemma {:induction false} WithinDistinct(rows: seq<Row>, maxAttempts: nat)
    requires DistinctPositions(rows)
    ensures DistinctPositions(Within(rows, maxAttempts))
  {
    if rows != [] {
      var n := |rows| - 1;
      WithinDistinct(rows[..n], maxAttempts);
      var within := Within(rows[..n], maxAttempts);
      forall i | 0 <= i < |within| ensures within[i].position != rows[n].position { WithinMember(rows[..n], maxAttempts, within[i]); }
    }
  }

  lemma HandledSorted(c: Config, s: State)
    requires InLog(s.log, s.queue) && DistinctPositions(s.queue)
    ensures Increasing(Handled(c, s))
  {
    hide Within, ByPosition;
    WithinDistinct(Claimed(c, s), c.maxAttempts);
    Sorts(Within(Claimed(c, s), c.maxAttempts));
  }

  /** A successful round on any queue, whatever the order of its rows and wherever the
      checkpoints are: the rows it handles are acknowledged, and for those whose
      events it shows exactly the projections run that take the topic and whose
      checkpoint is behind the event, once each. */
  lemma RoundHandlesExactly(c: Config, s: State, bad: set<Effect>, released: bool, name: string, p: nat)
    requires DistinctNames(c.projections) && InLog(s.log, s.queue) && DistinctPositions(s.queue) && Processed(c, s, bad).Some?
    ensures var t := RoundOf(c, s, bad, released);
            t.acked == s.acked + Positions(Handled(c, s)) &&
            Runs(t.work.effects, name, p) == Runs(s.work.effects, name, p) +
              if 1 <= p <= |s.log| && p in Positions(Handled(c, s)) && (c.includeDismissed || !s.log[p - 1].dismissed) &&
                 Ahead(c.projections, s.work.cps, name, s.log[p - 1], p) then 1 else 0
  {
    HandledSorted(c, s);
    ShownPosition(c.includeDismissed, s.log, Handled(c, s), p);
    hide HandleRows, Handled, DistinctNames, Positions, Shown, Runs, Ahead, Increasing, CpsMove, DistinctPositions, Exceeded;
    RowsHandledExactly(c.projections, c.includeDismissed, s.log, Handled(c, s), bad, s.work);
  }

  /** requeue: a dead letter comes to the end of the outbox, unless the position has a
      row there already, locked or not. */
  function Requeued(s: State, p: nat): State
  {
    if p !in s.dead then s
    else s.(queue := if p in Positions(s.queue) + s.stuck then s.queue else s.queue + [Row(p, 0)], dead := s.dead - {p})
  }

  /** A requeue takes the dead letter away, and leaves one row for its position, with
      no attempts if it is a new one; every row stays in exactly one place. */
  lemma RequeuedOnce(s: State, p: nat)
    requires p in s.dead
    ensures var t := Requeued(s, p);
            t == s.(queue := t.queue, dead := t.dead) && t.dead == s.dead - {p} &&
            (p in Positions(t.queue) || p in t.stuck) &&
            s.queue <= t.queue <= s.queue + [Row(p, 0)] && (p in Positions(s.queue) || p in s.stuck ==> t.queue == s.queue) &&
            (Partitioned(s) ==> Partitioned(t)) && (DistinctPositions(s.queue) ==> DistinctPositions(t.queue))
  {
    var t := Requeued(s, p);
    forall q ensures q in Positions(t.queue) <==> q in Positions(s.queue) || (q == p && p !in s.stuck) {
      if q in Positions(s.queue) {
        var i :| 0 <= i < |s.queue| && s.queue[i].position == q;
        assert t.queue[i].position == q;
      }
      if p !in Positions(s.queue) && p !in s.stuck { assert t.queue[|s.queue|].position == p; }
    }
    assert forall i | 0 <= i < |s.queue| :: s.queue[i].position in Positions(s.queue);
  }

  /** A dead letter that an operator puts back is subject to the same checkpoint
      test: in a successful round that claims it, a projection handles it exactly
      when it takes the topic and has not yet passed the position. The row is
      acknowledged either way. */
  lemma RequeuedHandledOnlyAhead(c: Config, s: State, p: nat, bad: set<Effect>, released: bool, name: string)
    requires DistinctNames(c.projections) && InLog(s.log, s.queue) && DistinctPositions(s.queue)
    requires 1 <= p <= |s.log| && p in s.dead && p !in Positions(s.queue) + s.stuck && (c.includeDismissed || !s.log[p - 1].dismissed)
    requires |s.queue| < c.batchSize && c.maxAttempts >= 1 && Processed(c, Requeued(s, p), bad).Some?
    ensures var t := RoundOf(c, Requeued(s, p), bad, released);
            p in t.acked &&
            Runs(t.work.effects, name, p) ==
              Runs(s.work.effects, name, p) + if Ahead(c.projections, s.work.cps, name, s.log[p - 1], p) then 1 else 0
  {
    var r := Requeued(s, p);
    RequeuedQueue(s, p);
    RequeuedClaimed(c, r, p);
    hide RoundOf, Runs, Ahead, DistinctNames, Processed, Handled, DistinctPositions, Positions, InLog;
    RoundHandlesExactly(c, r, bad, released, name, p);
  }

  lemma RequeuedQueue(s: State, p: nat)
    requires DistinctPositions(s.queue) && InLog(s.log, s.queue) && 1 <= p <= |s.log| && p in s.dead && p !in Positions(s.queue) + s.stuck
    ensures Requeued(s, p).queue == s.queue + [Row(p, 0)]
    ensures DistinctPositions(Requeued(s, p).queue) && InLog(s.log, Requeued(s, p).queue)
  {
    assert forall i | 0 <= i < |s.queue| :: s.queue[i].position in Positions(s.queue);
  }

  lemma RequeuedClaimed(c: Config, s: State, p: nat)
    requires InLog(s.log, s.queue) && s.queue != [] && s.queue[|s.queue| - 1] == Row(p, 0) && |s.queue| <= c.batchSize && c.maxAttempts >= 1
    ensures p in Positions(Handled(c, s))
  {
    var claimed := Claimed(c, s);
    assert s.queue[..|s.queue|] == s.queue;
    assert claimed[|s.queue| - 1] == Row(p, 1);
    WithinMember(claimed, c.maxAttempts, Row(p, 1));
    SameMembers(Within(claimed, c.maxAttempts), Row(p, 1));
    hide Within, ByPosition, Claimed;
    var k :| 0 <= k < |Handled(c, s)| && Handled(c, s)[k] == Row(p, 1);
    assert Handled(c, s)[k].position == p;
  }

  lemma OneRow(c: Config, log: seq<Event>, rows: seq<Row>, bad: set<Effect>, w: Work)
    requires |rows| == 1 && InLog(log, rows) && !log[rows[0].position - 1].dismissed
    ensures HandleRows(c.projections, c.includeDismissed, log, rows, bad, w) == HandleEvent(c.projections, log[rows[0].position - 1], rows[0].position, bad, w)
  {
    hide HandleEvent;
    assert HandleRows(c.projections, c.includeDismissed, log, rows[..|rows| - 1], bad, w) == Some(w);
  }

  // ---------------------------------------------------------------------------
  // Bounded blocking
  // ---------------------------------------------------------------------------

  /** The failures that the i-th place of the queue has left. */
  function Need(c: Config, queue: seq<Row>, i: nat): nat
  {
    if i < |queue| then (if queue[i].attempts <= c.maxAttempts then c.maxAttempts - queue[i].attempts else 0) else c.maxAttempts
  }

  function Budget(c: Config, queue: seq<Row>, n: nat): nat { if n == 0 then 0 else Budget(c, queue, n - 1) + Need(c, queue, n - 1) }

  lemma {:induction false} BudgetBound(c: Config, queue: seq<Row>, n: nat)
    ensures Budget(c, queue, n) <= n * c.maxAttempts
  {
    if n > 0 {
      BudgetBound(c, queue, n - 1);
      assert (n - 1) * c.maxAttempts + c.maxAttempts == n * c.maxAttempts;
    }
  }

  lemma {:induction false} BudgetMonotone(c: Config, a: seq<Row>, b: seq<Row>, n: nat)
    requires forall i | 0 <= i < n :: Need(c, b, i) <= Need(c, a, i)
    ensures Budget(c, b, n) <= Budget(c, a, n)
    ensures (exists i :: 0 <= i < n && Need(c, b, i) < Need(c, a, i)) ==> Budget(c, b, n) < Budget(c, a, n)
  {
    if n > 0 { BudgetMonotone(c, a, b, n - 1); }
  }

  function Rounds(steps: seq<Step>): nat
  {
    if steps == [] then 0 else Rounds(steps[..|steps| - 1]) + if steps[|steps| - 1].Round? then 1 else 0
  }

  /** The worker always gets to release its rows. */
  predicate AllReleased(steps: seq<Step>) { forall i | 0 <= i < |steps| && steps[i].Round? :: steps[i].released }

  /** A failing round uses up some of the budget of the places it claims: the row
      that failed was not yet past its attempts. */
  lemma FailureSpends(c: Config, s: State, bad: set<Effect>)
    requires InLog(s.log, s.queue) && Processed(c, s, bad).None?
    ensures Budget(c, Claimed(c, s) + Unclaimed(c, s), c.batchSize) < Budget(c, s.queue, c.batchSize)
  {
    var claimed := Claimed(c, s);
    var after := claimed + Unclaimed(c, s);
    assert Handled(c, s) != [];
    SameMembers(Within(claimed, c.maxAttempts), Handled(c, s)[0]);
    WithinMember(claimed, c.maxAttempts, Handled(c, s)[0]);
    hide Within, HandleRows, InLog, Budget, ByPosition;
    var k :| 0 <= k < |claimed| && claimed[k] == Handled(c, s)[0];
    assert Need(c, after, k) < Need(c, s.queue, k);
    BudgetMonotone(c, s.queue, after, c.batchSize);
  }

  /** While the head of the queue stays, every round has failed and spent. */
  lemma {:induction false} HeadWaits(c: Config, s: State, steps: seq<Step>)
    requires DistinctNames(c.projections) && Inv(c, s) && c.batchSize >= 1 && s.queue != [] && AllReleased(steps)
    requires s.queue[0].position in Positions(After(c, s, steps).queue)
    ensures After(c, s, steps).queue != [] && After(c, s, steps).queue[0].position == s.queue[0].position
    ensures |After(c, s, steps).log| >= |s.log|
    ensures Rounds(steps) + Budget(c, After(c, s, steps).queue, c.batchSize) <= Budget(c, s.queue, c.batchSize)
  {
    if steps != [] {
      var init, step := steps[..|steps| - 1], steps[|steps| - 1];
      var before := After(c, s, init);
      var h := s.queue[0].position;
      RunKeepsInv(c, s, init);
      LogGrows(c, s, init);
      HeadWasThere(c, before, step, h);
      HeadWaits(c, s, init);
      match step
      case AppendEvent(e, enqueue) =>
        BudgetMonotone(c, before.queue, Next(c, before, step).queue, c.batchSize);
      case Dismiss(p) =>
      case Round(bad, released) =>
        assert released;
        HeadGone(c, before, bad, h);
        FailureSpends(c, before, bad);
        ClaimSame(c, before);
    }
  }

  lemma {:induction false} LogGrows(c: Config, s: State, steps: seq<Step>)
    requires InLog(s.log, s.queue)
    ensures |After(c, s, steps).log| >= |s.log|
  {
    if steps != [] { LogGrows(c, s, steps[..|steps| - 1]); }
  }

  lemma HeadWasThere(c: Config, s: State, step: Step, h: nat)
    requires InLog(s.log, s.queue) && h <= |s.log| && h in Positions(Next(c, s, step).queue)
    ensures h in Positions(s.queue)
  {
    var t := Next(c, s, step);
    var i :| 0 <= i < |t.queue| && t.queue[i].position == h;
    match step
    case AppendEvent(e, enqueue) => assert i < |s.queue| && s.queue[i].position == h;
    case Dismiss(p) =>
    case Round(bad, released) =>
      ClaimSame(c, s);
      if t.queue == Unclaimed(c, s) {
        assert s.queue[Least(c.batchSize, |s.queue|) + i].position == h;
      } else {
        assert s.queue[i].position == h;
      }
  }

  /** A successful round takes the head away. */
  lemma HeadGone(c: Config, s: State, bad: set<Effect>, h: nat)
    requires InLog(s.log, s.queue) && Increasing(s.queue) && c.batchSize >= 1 && s.queue != [] && s.queue[0].position == h
    requires h in Positions(RoundOf(c, s, bad, true).queue)
    ensures Processed(c, s, bad).None?
  {
    var n := Least(c.batchSize, |s.queue|);
    SplitRows(s.queue, n);
    assert s.queue[..n][0].position in Positions(s.queue[..n]);
    hide Processed;
  }

  /** Bounded blocking: however handlers fail, and although a failing round also
      rolls back its own dead-letter moves, the head of the outbox is settled after
      at most batchSize times maxAttempts failing rounds. */
  lemma BoundedBlocking(c: Config, s: State, steps: seq<Step>)
    requires DistinctNames(c.projections) && Inv(c, s) && c.batchSize >= 1 && s.queue != [] && AllReleased(steps)
    ensures s.queue[0].position in Positions(After(c, s, steps).queue) ==> Rounds(steps) <= c.batchSize * c.maxAttempts
  {
    if s.queue[0].position in Positions(After(c, s, steps).queue) {
      HeadWaits(c, s, steps);
      BudgetBound(c, s.queue, c.batchSize);
    }
  }

  lemma FailsOn(c: Config, s: State, r: Row, bad: set<Effect>)
    requires InLog(s.log, s.queue) && Handled(c, s) == [r] && 1 <= r.position <= |s.log| && !s.log[r.position - 1].dismissed
    requires c.projections == [Projection("p", All)] && Effect("p", r.position) in bad
    requires Checkpoint(s.work.cps, "p", s.log[r.position - 1].tenantId) < r.position
    ensures RoundOf(c, s, bad, true) == s.(queue := Claimed(c, s) + Unclaimed(c, s))
  {
    assert [r][0] == r;
    OneRow(c, s.log, [r], bad, s.work);
    hide HandleRows, Handled, Claimed, Unclaimed;
    assert c.projections[..0] == [];
  }

  /** One projection that takes everything, and any batch size and maximum. */
  function OneTaker(batchSize: nat, maxAttempts: nat): Config { Config([Projection("p", All)], batchSize, maxAttempts, false) }

  const EVENT: Event := Event("t", None, false)

  /** The outbox with one fresh row. */
  const ONE_ROW: State := State([EVENT], [Row(1, 0)], {}, {}, {1}, {}, Work(map[], []))

  /** The last of k + 1 rows has failed j times, and all before it are exhausted. */
  predicate LastFailing(c: Config, s: State, k: nat, j: nat)
  {
    |s.log| == |s.queue| == k + 1 && s.work == Work(map[], []) &&
    (forall i | 0 <= i <= k :: s.log[i] == EVENT && s.queue[i].position == i + 1) &&
    (forall i | 0 <= i < k :: s.queue[i].attempts >= c.maxAttempts) && s.queue[k].attempts == j
  }

  lemma {:induction false} WithinNone(rows: seq<Row>, maxAttempts: nat)
    requires forall i | 0 <= i < |rows| :: rows[i].attempts > maxAttempts
    ensures Within(rows, maxAttempts) == []
  {
    if rows != [] { WithinNone(rows[..|rows| - 1], maxAttempts); }
  }

  lemma OnlyLastHandled(c: Config, s: State, k: nat, j: nat)
    requires InLog(s.log, s.queue) && LastFailing(c, s, k, j) && j < c.maxAttempts && k < c.batchSize
    ensures Handled(c, s) == [Row(k + 1, j + 1)]
  {
    assert s.queue[..k + 1] == s.queue;
    var claimed := Claimed(c, s);
    assert |claimed| == k + 1 && claimed[k] == Row(k + 1, j + 1);
    WithinNone(claimed[..k], c.maxAttempts);
    assert Within(claimed, c.maxAttempts) == [] + [claimed[k]];
    hide Within;
    AlreadySorted([claimed[k]]);
  }

  lemma FailsAgain(c: Config, s: State, k: nat, j: nat)
    requires c == OneTaker(c.batchSize, c.maxAttempts)
    requires InLog(s.log, s.queue) && LastFailing(c, s, k, j) && j < c.maxAttempts && k < c.batchSize
    ensures LastFailing(c, RoundOf(c, s, {Effect("p", k + 1)}, true), k, j + 1)
  {
    hide RoundOf, Handled;
    OnlyLastHandled(c, s, k, j);
    FailsOn(c, s, Row(k + 1, j + 1), {Effect("p", k + 1)});
    ClaimsAll(c, s);
    hide Claimed, Unclaimed;
  }

  lemma ClaimsAll(c: Config, s: State)
    requires |s.queue| <= c.batchSize
    ensures Claimed(c, s) + Unclaimed(c, s) == Bumped(s.queue)
  {
    assert s.queue[..|s.queue|] == s.queue && Unclaimed(c, s) == [];
  }

  /** Row after row joins the batch of the exhausted ones and fails in its turn. */
  lemma {:induction false} FailsInTurn(c: Config, k: nat, j: nat) returns (steps: seq<Step>)
    requires c == OneTaker(c.batchSize, c.maxAttempts) && c.maxAttempts >= 1 && k < c.batchSize && j <= c.maxAttempts
    ensures LastFailing(c, After(c, ONE_ROW, steps), k, j) && Rounds(steps) == k * c.maxAttempts + j && AllReleased(steps)
    decreases k, j
  {
    hide RoundOf, LastFailing;
    if j > 0 {
      var before := FailsInTurn(c, k, j - 1);
      var step := Round({Effect("p", k + 1)}, true);
      FailsAgain(c, After(c, ONE_ROW, before), k, j - 1);
      steps := before + [step];
      assert steps[..|before|] == before;
    } else if k > 0 {
      var before := FailsInTurn(c, k - 1, c.maxAttempts);
      Joins(c, After(c, ONE_ROW, before), k - 1);
      steps := before + [AppendEvent(EVENT, true)];
      assert steps[..|before|] == before;
      TimesNext(k - 1, c.maxAttempts);
    } else {
      steps := [];
      StartsFailing(c);
    }
  }

  lemma StartsFailing(c: Config)
    ensures LastFailing(c, ONE_ROW, 0, 0)
  {
  }

  lemma Joins(c: Config, s: State, k: nat)
    requires InLog(s.log, s.queue) && LastFailing(c, s, k, c.maxAttempts)
    ensures LastFailing(c, Next(c, s, AppendEvent(EVENT, true)), k + 1, 0)
  {
  }

  /** The bound is reached, for every batch size and every maximum: each row that
      joins the batch of the exhausted ones fails in its turn and rolls their dead
      letters back. */
  lemma BoundReached(batchSize: nat, maxAttempts: nat)
    requires batchSize >= 1 && maxAttempts >= 1
    ensures Inv(OneTaker(batchSize, maxAttempts), ONE_ROW)
    ensures exists steps :: AllReleased(steps) && Rounds(steps) == batchSize * maxAttempts &&
                            1 in Positions(After(OneTaker(batchSize, maxAttempts), ONE_ROW, steps).queue)
  {
    hide *;
    var c := OneTaker(batchSize, maxAttempts);
    TakerFields(batchSize, maxAttempts);
    OneRowInv(c);
    var steps := FailsInTurn(c, batchSize - 1, maxAttempts);
    StillThere(c, After(c, ONE_ROW, steps), batchSize - 1, maxAttempts);
    TimesNext(batchSize - 1, maxAttempts);
  }

  lemma TakerFields(batchSize: nat, maxAttempts: nat)
    ensures var c := OneTaker(batchSize, maxAttempts);
            c.batchSize == batchSize && c.maxAttempts == maxAttempts && InLog(ONE_ROW.log, ONE_ROW.queue)
  {
  }

  lemma StillThere(c: Config, s: State, k: nat, j: nat)
    requires LastFailing(c, s, k, j)
    ensures 1 in Positions(s.queue)
  {
    assert s.queue[0].position == 1;
  }

  lemma TimesNext(n: nat, m: nat)
    ensures n * m + m == (n + 1) * m
  {
  }

  lemma OneRowInv(c: Config)
    ensures Inv(c, ONE_ROW)
  {
    InitialInv(c);
    AppendKeepsInv(c, INITIAL, EVENT, true);
    hide Inv;
    assert Next(c, INITIAL, AppendEvent(EVENT, true)) == ONE_ROW;
  }

  // ---------------------------------------------------------------------------
  // The runner
  // ---------------------------------------------------------------------------

  class AsyncProjectionRunner {
    const config: Config
    /** Committed state; the rows this worker has locked are in locked. */
    var state: State
    var locked: seq<Row>

    constructor (config: Config)
      ensures this.config == config && state == INITIAL && locked == []
    {
      this.config := config;
      state, locked := INITIAL, [];
    }

    /** claimBatch, in its own transaction. */
    method ClaimBatch() returns (claimed: seq<Row>)
      requires locked == []
      modifies this
      ensures claimed == locked == Claimed(config, old(state))
      ensures state == old(state).(queue := Unclaimed(config, old(state)))
    {
      claimed := [];
      var n := 0;
      while n < config.batchSize && n < |state.queue|
        invariant n <= config.batchSize && n <= |state.queue| && claimed == Bumped(state.queue[..n])
      {
        var row := state.queue[n];
        claimed := claimed + [Row(row.position, row.attempts + 1)];
        n := n + 1;
      }
      locked := claimed;
      state := state.(queue := state.queue[n..]);
    }

    /** The projections of one event, on a working copy. */
    method HandleOne(e: Event, position: nat, bad: set<Effect>, w: Work) returns (r: Option<Work>)
      ensures r == HandleEvent(config.projections, e, position, bad, w)
    {
      var working := w;
      var ps := config.projections;
      assert ps[..0] == [];
      for i := 0 to |ps|
        invariant HandleEvent(ps[..i], e, position, bad, w) == Some(working)
      {
        assert ps[..i + 1][..i] == ps[..i];
        var p := ps[i];
        if Matches(p, e.topic) && position > Checkpoint(working.cps, p.name, e.tenantId) {
          if Effect(p.name, position) in bad {
            EventFails(ps, e, position, bad, w, i + 1);
            return None;
          }
          working := Work(working.cps[(p.name, e.tenantId) := position], working.effects + [Effect(p.name, position)]);
        }
      }
      assert ps[..|ps|] == ps;
      return Some(working);
    }

    /** The filter of the batch: rows that have not exceeded their attempts. */
    method Remaining(claimed: seq<Row>) returns (remaining: seq<Row>, exceeded: set<nat>)
      ensures remaining == Within(claimed, config.maxAttempts) && exceeded == Exceeded(claimed, config.maxAttempts)
    {
      remaining, exceeded := [], {};
      assert claimed[..0] == [];
      for i := 0 to |claimed|
        invariant remaining == Within(claimed[..i], config.maxAttempts) && exceeded == Exceeded(claimed[..i], config.maxAttempts)
      {
        assert claimed[..i + 1][..i] == claimed[..i];
        ExceededNext(claimed, i, config.maxAttempts);
        if claimed[i].attempts > config.maxAttempts {
          exceeded := exceeded + {claimed[i].position};
        } else {
          remaining := remaining + [claimed[i]];
        }
      }
      assert claimed[..|claimed|] == claimed;
    }

    /** The handler loop of a batch, on a working copy, with the rows it
        acknowledges. */
    method HandleAll(log: seq<Event>, rows: seq<Row>, bad: set<Effect>, w: Work) returns (r: Option<Work>, handled: set<nat>)
      requires InLog(log, rows)
      ensures r == HandleRows(config.projections, config.includeDismissed, log, rows, bad, w)
      ensures r.Some? ==> handled == Positions(rows)
    {
      hide HandleEvent, HandleRows, Positions;
      NoRows(config.projections, config.includeDismissed, log, bad, w);
      var working := w;
      handled := {};
      assert rows[..0] == [];
      for i := 0 to |rows|
        invariant InLog(log, rows[..i]) && handled == Positions(rows[..i])
        invariant HandleRows(config.projections, config.includeDismissed, log, rows[..i], bad, w) == Some(working)
      {
        PositionsNext(rows, i);
        RowsNext(config.projections, config.includeDismissed, log, rows, bad, w, i, working);
        var row := rows[i];
        var env := log[row.position - 1];
        if !env.dismissed || config.includeDismissed {
          var next := HandleOne(env, row.position, bad, working);
          if next.None? {
            RowsFail(config.projections, config.includeDismissed, log, rows, bad, w, i + 1);
            return None, {};
          }
          working := next.value;
        }
        handled := handled + {row.position};
      }
      assert rows[..|rows|] == rows;
      return Some(working), handled;
    }

    /** processBatch: dead-letter, handle and acknowledge in one transaction, which
        a failing handler rolls back. */
    method ProcessBatch(bad: set<Effect>) returns (ok: bool)
      requires InLog(state.log, locked)
      modifies this
      ensures InLog(old(state.log), ByPosition(Within(old(locked), config.maxAttempts)))
      ensures var done := HandleRows(config.projections, config.includeDismissed, old(state.log), ByPosition(Within(old(locked), config.maxAttempts)), bad, old(state.work));
        ok == done.Some? &&
        (ok ==> locked == [] &&
                state == old(state).(work := done.value, dead := old(state.dead) + Exceeded(old(locked), config.maxAttempts),
                                     acked := old(state.acked) + Positions(ByPosition(Within(old(locked), config.maxAttempts))))) &&
        (!ok ==> state == old(state) && locked == old(locked))
    {
      WithinInLog(state.log, locked, config.maxAttempts);
      ByPositionFacts(state.log, Within(locked, config.maxAttempts));
      hide Within, Exceeded, HandleRows, Positions, ByPosition;
      var remaining, exceeded := Remaining(locked);
      var working, handled := HandleAll(state.log, ByPosition(remaining), bad, state.work);
      if working.None? { return false; }
      state := state.(work := working.value, dead := state.dead + exceeded, acked := state.acked + handled);
      locked := [];
      return true;
    }

    /** One pass of the runner's loop. */
    method RunRound(bad: set<Effect>, released: bool)
      requires InLog(state.log, state.queue) && locked == []
      modifies this
      ensures state == RoundOf(config, old(state), bad, released) && locked == []
    {
      ghost var s := state;
      var claimed := ClaimBatch();
      BumpedSame(s.log, s.queue[..Least(config.batchSize, |s.queue|)]);
      var ok := ProcessBatch(bad);
      if !ok {
        if released {
          state := state.(queue := locked + state.queue);
        } else {
          state := state.(stuck := state.stuck + Positions(locked));
        }
        locked := [];
      }
    }

  }

  lemma ExceededNext(rows: seq<Row>, i: nat, maxAttempts: nat)
    requires i < |rows|
    ensures Exceeded(rows[..i + 1], maxAttempts) == Exceeded(rows[..i], maxAttempts) + if rows[i].attempts > maxAttempts then {rows[i].position} else {}
  {
    forall p ensures p in Exceeded(rows[..i + 1], maxAttempts) <==>
                     p in Exceeded(rows[..i], maxAttempts) || (rows[i].attempts > maxAttempts && p == rows[i].position)
    {
      if p in Exceeded(rows[..i], maxAttempts) {
        var k :| 0 <= k < i && rows[..i][k].attempts > maxAttempts && rows[..i][k].position == p;
        assert rows[..i + 1][k] == rows[..i][k];
      }
      if rows[i].attempts > maxAttempts && p == rows[i].position { assert rows[..i + 1][i] == rows[i]; }
      if p in Exceeded(rows[..i + 1], maxAttempts) && p != rows[i].position {
        var k :| 0 <= k < i + 1 && rows[..i + 1][k].attempts > maxAttempts && rows[..i + 1][k].position == p;
        assert rows[..i][k] == rows[..i + 1][k];
      }
    }
  }

  lemma PositionsNext(rows: seq<Row>, i: nat)
    requires i < |rows|
    ensures Positions(rows[..i + 1]) == Positions(rows[..i]) + {rows[i].position}
  {
    forall p ensures p in Positions(rows[..i + 1]) <==> p in Positions(rows[..i]) || p == rows[i].position {
      if p in Positions(rows[..i]) {
        var k :| 0 <= k < i && rows[..i][k].position == p;
        assert rows[..i + 1][k] == rows[..i][k];
      }
      if p == rows[i].position { assert rows[..i + 1][i] == rows[i]; }
      if p in Positions(rows[..i + 1]) && p != rows[i].position {
        var k :| 0 <= k < i + 1 && rows[..i + 1][k].position == p;
        assert rows[..i][k] == rows[..i + 1][k];
      }
    }
  }

  lemma {:induction false} EventFails(ps: seq<Projection>, e: Event, position: nat, bad: set<Effect>, w: Work, n: nat)
    requires n <= |ps| && HandleEvent(ps[..n], e, position, bad, w).None?
    ensures HandleEvent(ps, e, position, bad, w).None?
  {
    if n < |ps| {
      assert ps[..|ps| - 1][..n] == ps[..n];
      EventFails(ps[..|ps| - 1], e, position, bad, w, n);
    } else {
      assert ps[..n] == ps;
    }
  }

  lemma NoRows(ps: seq<Projection>, dismissedToo: bool, log: seq<Event>, bad: set<Effect>, w: Work)
    ensures HandleRows(ps, dismissedToo, log, [], bad, w) == Some(w) && Positions([]) == {}
  {
  }

  lemma RowsNext(ps: seq<Projection>, dismissedToo: bool, log: seq<Event>, rows: seq<Row>, bad: set<Effect>, w: Work, i: nat, working: Work)
    requires InLog(log, rows) && i < |rows| && InLog(log, rows[..i]) && HandleRows(ps, dismissedToo, log, rows[..i], bad, w) == Some(working)
    ensures var e := log[rows[i].position - 1];
            InLog(log, rows[..i + 1]) &&
            HandleRows(ps, dismissedToo, log, rows[..i + 1], bad, w) ==
              if e.dismissed && !dismissedToo then Some(working) else HandleEvent(ps, e, rows[i].position, bad, working)
  {
    hide HandleEvent;
    assert rows[..i + 1][..i] == rows[..i];
  }

  lemma {:induction false} RowsFail(ps: seq<Projection>, dismissedToo: bool, log: seq<Event>, rows: seq<Row>, bad: set<Effect>, w: Work, n: nat)
    requires InLog(log, rows) && n <= |rows| && InLog(log, rows[..n]) && HandleRows(ps, dismissedToo, log, rows[..n], bad, w).None?
    ensures HandleRows(ps, dismissedToo, log, rows, bad, w).None?
  {
    if n < |rows| {
      assert rows[..|rows| - 1][..n] == rows[..n];
      RowsFail(ps, dismissedToo, log, rows[..|rows| - 1], bad, w, n);
    } else {
      assert rows[..n] == rows;
    }
  }
}
