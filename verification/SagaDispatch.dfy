/** Saga command dispatch: queue rows claimed, sent through the bus and settled by
    any number of dispatchers (packages/sagas/src/saga-command-dispatcher.ts,
    packages/sagas-postgres/src/pg-saga-command-queue.ts). */
module SagaDispatch {
  import opened Wrappers
  import opened CanonicalJson
  import opened EventChain
  import opened CommandBus

  type RowId = nat

  type WorkerId = nat

  datatype RowStatus = Pending | InHand | Dead

  /** A row of the pending-commands table. */
  datatype Row = Row(status: RowStatus, attempts: nat)

  /** What a row was enqueued with. */
  datatype Origin = Origin(tenantId: string, sagaName: string, instanceId: string)

  /** The idempotency key rewriteCommand gives the command of a row. */
  function DispatchKey(sagaName: string, instanceId: string, id: RowId): string
  {
    "saga:" + sagaName + ":" + instanceId + ":" + Digits(id)
  }

  /** The bus slot of a row. */
  function SlotOf(o: Origin, id: RowId): SlotKey
  {
    SlotKey(o.tenantId, DispatchKey(o.sagaName, o.instanceId, id))
  }

  lemma {:induction false} DigitsHaveNoColon(n: nat)
    ensures forall i | 0 <= i < |Digits(n)| :: Digits(n)[i] != ':'
  {
    if n >= 10 { DigitsHaveNoColon(n / 10); }
  }

  /** Colons in saga names and instance ids cannot make the keys of two rows
      coincide: the row id is what follows the last colon. */
  lemma DispatchKeyInjective(s: string, i: string, m: RowId, t: string, j: string, n: RowId)
    requires DispatchKey(s, i, m) == DispatchKey(t, j, n)
    ensures m == n
  {
    var p, q := "saga:" + s + ":" + i, "saga:" + t + ":" + j;
    var a, b := Digits(m), Digits(n);
    var k := p + ":" + a;
    assert k == DispatchKey(s, i, m) && k == q + ":" + b;
    DigitsHaveNoColon(m);
    DigitsHaveNoColon(n);
    LastColon(p, a, q, b);
    assert a == k[|p| + 1..] && b == k[|q| + 1..];
    DigitsInjective(m, n);
  }

  lemma LastColon(p: string, a: string, q: string, b: string)
    requires p + ":" + a == q + ":" + b
    requires forall i | 0 <= i < |a| :: a[i] != ':'
    requires forall i | 0 <= i < |b| :: b[i] != ':'
    ensures |p| == |q|
  {
    var k := p + ":" + a;
    assert k[|p|] == ':' && k[|q|] == ':';
    assert forall i | |p| < i < |k| :: k[i] == a[i - |p| - 1];
    assert forall i | |q| < i < |k| :: k[i] == b[i - |q| - 1];
  }

  // ---------------------------------------------------------------------------
  // Any number of dispatchers
  // ---------------------------------------------------------------------------

  /** A claimed row in a dispatcher's hands. */
  datatype Item = Item(id: RowId, attempts: nat)

  /** The rest of a dispatcher's batch; sent tells how the send of the first row
      ended, if it has. */
  datatype Task = Task(batch: seq<Item>, sent: Option<bool>)

  /** The queue table, the bus state, the dispatchers at work, and the history
      of enqueued and acknowledged rows. */
  datatype Sys = Sys(
    rows: map<RowId, Row>, bus: BusDb, tasks: map<WorkerId, Task>,
    origins: map<RowId, Origin>, acked: set<RowId>)

  datatype Step =
    | Enqueue(origin: Origin)
    | Claim(w: WorkerId, ids: seq<RowId>)
    | Send(w: WorkerId, outcome: HandlerOutcome, givesUp: bool)
    | Settle(w: WorkerId, maxAttempts: nat, ackFails: bool)
    | Crash(w: WorkerId)
    | ResetStale(id: RowId)
    | Requeue(id: RowId)
    | Purge(id: RowId)
    | OtherSend(key: SlotKey, outcome: HandlerOutcome)

  /** Keys of other senders are not of the dispatcher's form. */
  predicate ForeignKey(k: SlotKey)
  {
    |k.key| < 5 || k.key[..5] != "saga:"
  }

  predicate Enabled(s: Sys, step: Step)
  {
    match step
    case Enqueue(_) => true
    case Claim(w, ids) => w !in s.tasks && Distinct(ids) && forall i | 0 <= i < |ids| :: ids[i] in s.rows && s.rows[ids[i]].status == Pending
    case Send(w, _, _) => w in s.tasks && s.tasks[w].batch != [] && s.tasks[w].sent.None? && s.tasks[w].batch[0].id in s.origins
    case Settle(w, _, _) => w in s.tasks && s.tasks[w].batch != [] && s.tasks[w].sent.Some?
    case Crash(w) => w in s.tasks
    case ResetStale(id) => id in s.rows && s.rows[id].status == InHand
    case Requeue(id) => id in s.rows && s.rows[id].status == Dead
    case Purge(id) => id in s.rows && s.rows[id].status == Dead
    case OtherSend(k, _) => ForeignKey(k)
  }

  /** Rows marked claimed, with one attempt more. */
  function ClaimRows(rows: map<RowId, Row>, ids: seq<RowId>): map<RowId, Row>
  {
    map id | id in rows :: if id in ids then Row(InHand, rows[id].attempts + 1) else rows[id]
  }

  /** ack deletes the row; a release or a failure mark updates it if it is still there. */
  function Settled(s: Sys, item: Item, ok: bool, maxAttempts: nat): Sys
  {
    if ok then s.(rows := s.rows - {item.id}, acked := s.acked + {item.id})
    else if item.id !in s.rows then s
    else if item.attempts >= maxAttempts then s.(rows := s.rows[item.id := s.rows[item.id].(status := Dead)])
    else s.(rows := s.rows[item.id := s.rows[item.id].(status := Pending)])
  }

  function NextId(s: Sys): RowId { |s.origins| + 1 }

  function Next(jsonb: Jsonb, s: Sys, step: Step): Sys
    requires Enabled(s, step)
  {
    match step
    case Enqueue(o) =>
      s.(rows := s.rows[NextId(s) := Row(Pending, 0)], origins := s.origins[NextId(s) := o])
    case Claim(w, ids) =>
      s.(rows := ClaimRows(s.rows, ids),
         tasks := s.tasks[w := Task(seq(|ids|, i requires 0 <= i < |ids| && ids[i] in s.rows => Item(ids[i], s.rows[ids[i]].attempts + 1)), None)])
    case Send(w, outcome, givesUp) =>
      var item := s.tasks[w].batch[0];
      var (bus, response) := Transacted(jsonb, s.bus, Attempt(SlotOf(s.origins[item.id], item.id), false, outcome, false, false, false));
      var sent := if response.Success? then Some(true) else if givesUp then Some(false) else None;
      s.(bus := bus, tasks := s.tasks[w := s.tasks[w].(sent := sent)])
    case Settle(w, maxAttempts, ackFails) =>
      var t := s.tasks[w];
      Settled(s, t.batch[0], t.sent.value && !ackFails, maxAttempts).(tasks := s.tasks[w := Task(t.batch[1..], None)])
    case Crash(w) => s.(tasks := s.tasks - {w})
    case ResetStale(id) => s.(rows := s.rows[id := s.rows[id].(status := Pending)])
    case Requeue(id) => s.(rows := s.rows[id := Row(Pending, 0)])
    case Purge(id) => s.(rows := s.rows - {id})
    case OtherSend(k, outcome) => s.(bus := Transacted(jsonb, s.bus, Attempt(k, false, outcome, false, false, false)).0)
  }

  const INITIAL: Sys := Sys(map[], BusDb(map[], []), map[], map[], {})

  /** The states reached by a run of steps of any dispatchers and operators. */
  function After(jsonb: Jsonb, steps: seq<Step>): Option<Sys>
  {
    if steps == [] then Some(INITIAL)
    else
      var before := After(jsonb, steps[..|steps| - 1]);
      if before.None? || !Enabled(before.value, steps[|steps| - 1]) then None
      else Some(Next(jsonb, before.value, steps[|steps| - 1]))
  }

  /** How often the effects of a row's command are committed. */
  function Dispatches(s: Sys, id: RowId): nat
    requires id in s.origins
  {
    Runs(s.bus, SlotOf(s.origins[id], id))
  }

  predicate SlotDone(s: Sys, id: RowId)
    requires id in s.origins
  {
    var k := SlotOf(s.origins[id], id);
    k in s.bus.slots && s.bus.slots[k].Done?
  }

  /** Ids are never reused, and a row that is acknowledged, or about to be, has
      its slot done. */
  ghost predicate Inv(s: Sys)
  {
    SlotsExact(s.bus) &&
    (forall id :: id in s.origins <==> 1 <= id <= |s.origins|) &&
    (forall id | id in s.rows :: id in s.origins) &&
    (forall id | id in s.acked :: id in s.origins && SlotDone(s, id) && id !in s.rows) &&
    forall w | w in s.tasks :: TaskInv(s, s.tasks[w])
  }

  ghost predicate TaskInv(s: Sys, t: Task)
  {
    (forall i | 0 <= i < |t.batch| :: t.batch[i].id in s.origins) &&
    (t.sent == Some(true) ==> t.batch != [] && SlotDone(s, t.batch[0].id))
  }

  /** Nothing that was done is undone by a step. */
  ghost predicate Extends(s: Sys, t: Sys)
  {
    Later(s.bus, t.bus) && s.acked <= t.acked &&
    forall id | id in s.origins :: id in t.origins && t.origins[id] == s.origins[id]
  }

  lemma ExtendsReflexive(s: Sys)
    ensures Extends(s, s)
  {
  }

  lemma ExtendsTransitive(s: Sys, t: Sys, u: Sys)
    requires Extends(s, t) && Extends(t, u)
    ensures Extends(s, u)
  {
  }

  lemma ExtendsKeepsTask(s: Sys, t: Sys, task: Task)
    requires Extends(s, t) && TaskInv(s, task)
    ensures TaskInv(t, task)
  {
  }

  /** Steps that leave the bus and the history alone keep the invariant. */
  lemma QuietKeepsInv(s: Sys, t: Sys)
    requires Inv(s) && t.bus == s.bus && t.origins == s.origins && t.acked == s.acked && t.rows.Keys <= s.rows.Keys
    requires forall w | w in t.tasks :: (w in s.tasks && t.tasks[w] == s.tasks[w]) || TaskInv(s, t.tasks[w])
    ensures Inv(t) && Extends(s, t)
  {
    hide SlotOf, SlotsExact;
    forall w | w in t.tasks ensures TaskInv(t, t.tasks[w]) {
      assert TaskInv(s, t.tasks[w]);
      ExtendsKeepsTask(s, t, t.tasks[w]);
    }
  }

  lemma LaterReflexive(db: BusDb)
    ensures Later(db, db)
  {
  }

  lemma EnqueueKeepsInv(s: Sys, o: Origin, t: Sys)
    requires Inv(s)
    requires t == s.(rows := s.rows[NextId(s) := Row(Pending, 0)], origins := s.origins[NextId(s) := o])
    ensures Inv(t) && Extends(s, t)
  {
    hide SlotOf, SlotsExact, Later, TaskInv;
    LaterReflexive(s.bus);
    assert NextId(s) !in s.origins;
    assert |t.origins| == |s.origins| + 1;
    assert forall id | id in s.origins :: id in t.origins && t.origins[id] == s.origins[id];
    forall w | w in s.tasks ensures TaskInv(t, t.tasks[w]) { ExtendsKeepsTask(s, t, s.tasks[w]); }
    forall id | id in t.acked ensures id in t.origins && SlotDone(t, id) && id !in t.rows { assert SlotDone(s, id); }
    hide SlotDone;
  }

  /** The attempt is for the first row of w's batch, which stays in hand. */
  predicate SendsHead(s: Sys, w: WorkerId, a: Attempt, t: Sys)
    requires w in s.tasks && w in t.tasks
  {
    s.tasks[w].batch != [] && t.tasks[w].batch == s.tasks[w].batch &&
    var id := s.tasks[w].batch[0].id; id in s.origins && a.key == SlotOf(s.origins[id], id)
  }

  /** A transaction on the bus; a success is that of the first row of a batch. */
  lemma BusKeepsInv(jsonb: Jsonb, s: Sys, a: Attempt, t: Sys)
    requires Inv(s) && !a.optOut && !a.swallows
    requires t.bus == Transacted(jsonb, s.bus, a).0
    requires t.rows == s.rows && t.origins == s.origins && t.acked == s.acked && t.tasks.Keys == s.tasks.Keys
    requires forall w | w in s.tasks ::
               t.tasks[w] == s.tasks[w] || (SendsHead(s, w, a, t) && (t.tasks[w].sent == Some(true) ==> Transacted(jsonb, s.bus, a).1.Success?))
    ensures Inv(t) && Extends(s, t)
  {
    TransactedExact(jsonb, s.bus, a);
    hide SlotOf, SlotsExact, Transacted, Runs;
    assert Extends(s, t) by { hide TaskInv, SlotDone; }
    forall w | w in t.tasks ensures TaskInv(t, t.tasks[w]) { SentTask(jsonb, s, a, t, w); }
    hide TaskInv;
  }

  lemma SentTask(jsonb: Jsonb, s: Sys, a: Attempt, t: Sys, w: WorkerId)
    requires w in s.tasks && w in t.tasks && TaskInv(s, s.tasks[w]) && Extends(s, t) && t.origins == s.origins
    requires t.tasks[w] == s.tasks[w] || (SendsHead(s, w, a, t) && (t.tasks[w].sent == Some(true) ==> Transacted(jsonb, s.bus, a).1.Success?))
    requires Transacted(jsonb, s.bus, a).1.Success? ==> a.key in t.bus.slots && t.bus.slots[a.key].Done?
    ensures TaskInv(t, t.tasks[w])
  {
    hide Transacted, SlotOf, Later;
    ExtendsKeepsTask(s, t, s.tasks[w]);
  }

  lemma SettleKeepsInv(s: Sys, w: WorkerId, maxAttempts: nat, ackFails: bool, t: Sys)
    requires Inv(s) && w in s.tasks && s.tasks[w].batch != [] && s.tasks[w].sent.Some?
    requires t == Settled(s, s.tasks[w].batch[0], s.tasks[w].sent.value && !ackFails, maxAttempts)
                    .(tasks := s.tasks[w := Task(s.tasks[w].batch[1..], None)])
    ensures Inv(t) && Extends(s, t)
    ensures s.tasks[w].sent.value && !ackFails ==> s.tasks[w].batch[0].id in t.acked
  {
    hide SlotOf, SlotsExact;
    assert TaskInv(s, s.tasks[w]);
    assert TaskInv(s, t.tasks[w]);
    if s.tasks[w].sent.value && !ackFails {
      forall v | v in t.tasks ensures TaskInv(t, t.tasks[v]) {
        assert TaskInv(s, t.tasks[v]);
        ExtendsKeepsTask(s, t, t.tasks[v]);
      }
    } else {
      QuietKeepsInv(s, t);
    }
  }

  lemma ClaimKeepsInv(jsonb: Jsonb, s: Sys, w: WorkerId, ids: seq<RowId>)
    requires Inv(s) && Enabled(s, Claim(w, ids))
    ensures Inv(Next(jsonb, s, Claim(w, ids))) && Extends(s, Next(jsonb, s, Claim(w, ids)))
  {
    hide SlotOf, SlotsExact;
    var t := Next(jsonb, s, Claim(w, ids));
    assert TaskInv(s, t.tasks[w]);
    QuietKeepsInv(s, t);
  }

  lemma {:induction false} StepKeepsInv(jsonb: Jsonb, s: Sys, step: Step)
    requires Inv(s) && Enabled(s, step)
    ensures Inv(Next(jsonb, s, step)) && Extends(s, Next(jsonb, s, step))
  {
    hide SlotOf, Inv, Extends, Transacted, Settled;
    var t := Next(jsonb, s, step);
    match step
    case Enqueue(o) => EnqueueKeepsInv(s, o, t);
    case Claim(w, ids) => ClaimKeepsInv(jsonb, s, w, ids);
    case Send(w, outcome, givesUp) =>
      var item := s.tasks[w].batch[0];
      BusKeepsInv(jsonb, s, Attempt(SlotOf(s.origins[item.id], item.id), false, outcome, false, false, false), t);
    case Settle(w, maxAttempts, ackFails) => SettleKeepsInv(s, w, maxAttempts, ackFails, t);
    case OtherSend(k, outcome) => BusKeepsInv(jsonb, s, Attempt(k, false, outcome, false, false, false), t);
    case _ => QuietKeepsInv(s, t);
  }

  lemma {:induction false} ReachableInv(jsonb: Jsonb, steps: seq<Step>)
    requires After(jsonb, steps).Some?
    ensures Inv(After(jsonb, steps).value)
  {
    if steps != [] {
      ReachableInv(jsonb, steps[..|steps| - 1]);
      StepKeepsInv(jsonb, After(jsonb, steps[..|steps| - 1]).value, steps[|steps| - 1]);
    }
  }

  /** Exactly-once dispatch: in every run of any number of dispatchers with
      crashes, watchdog resets, requeues and other bus traffic, the effects of
      each enqueued command are committed at most once, and those of an
      acknowledged row exactly once. */
  lemma ExactlyOnceDispatch(jsonb: Jsonb, steps: seq<Step>, id: RowId)
    requires After(jsonb, steps).Some? && id in After(jsonb, steps).value.origins
    ensures var s := After(jsonb, steps).value;
            Dispatches(s, id) <= 1 &&
            (id in s.acked ==> Dispatches(s, id) == 1 && id !in s.rows)
  {
    ReachableInv(jsonb, steps);
  }

  lemma OwnKeysNotForeign(o: Origin, id: RowId)
    ensures !ForeignKey(SlotOf(o, id))
  {
    assert SlotOf(o, id).key[..5] == "saga:";
  }

  /** The effects counted for a row are those of that row: no other row's
      command and no foreign sender writes under its key. */
  lemma DispatchesAreOwn(s: Sys, id: RowId, step: Step, jsonb: Jsonb)
    requires Inv(s) && id in s.origins && Enabled(s, step)
    ensures id in Next(jsonb, s, step).origins
    ensures Dispatches(Next(jsonb, s, step), id) == Dispatches(s, id) ||
            (step.Send? && s.tasks[step.w].batch[0].id == id)
  {
    var key := SlotOf(s.origins[id], id);
    OwnKeysNotForeign(s.origins[id], id);
    hide Transacted, Runs, ForeignKey;
    match step
    case Send(w, outcome, _) =>
      var item := s.tasks[w].batch[0];
      var p, q := s.origins[item.id], s.origins[id];
      OnlyOwnRuns(jsonb, s.bus, Attempt(SlotOf(p, item.id), false, outcome, false, false, false), key);
      if SlotOf(p, item.id) == key {
        DispatchKeyInjective(p.sagaName, p.instanceId, item.id, q.sagaName, q.instanceId, id);
      }
    case OtherSend(k, outcome) => OnlyOwnRuns(jsonb, s.bus, Attempt(k, false, outcome, false, false, false), key);
    case _ =>
  }

  /** The row's tenant always wins, whatever the command says: what the send of a row
      adds to the bus is under the row's tenant and under the key made of its saga, its
      instance and its id. */
  lemma RowTenantWins(jsonb: Jsonb, s: Sys, w: WorkerId, outcome: HandlerOutcome, givesUp: bool, i: nat)
    requires Enabled(s, Send(w, outcome, givesUp))
    requires |s.bus.effects| <= i < |Next(jsonb, s, Send(w, outcome, givesUp)).bus.effects|
    ensures var id := s.tasks[w].batch[0].id;
            var o, k := s.origins[id], Next(jsonb, s, Send(w, outcome, givesUp)).bus.effects[i];
            k.tenantId == o.tenantId && k.key == "saga:" + o.sagaName + ":" + o.instanceId + ":" + Digits(id)
  {
  }

  lemma OnlyOwnRuns(jsonb: Jsonb, db: BusDb, a: Attempt, k: SlotKey)
    requires !a.swallows
    ensures Runs(Transacted(jsonb, db, a).0, k) != Runs(db, k) ==> k == a.key
  {
    var after := Transacted(jsonb, db, a).0;
    assert after.effects == db.effects || after.effects == db.effects + [a.key];
  }

  /** A queued row is not lost: it disappears only by an acknowledgement or by
      the operator's purge of a dead row. */
  lemma {:induction false} RowsNotLost(jsonb: Jsonb, s: Sys, step: Step, id: RowId)
    requires Inv(s) && Enabled(s, step) && id in s.rows && id !in Next(jsonb, s, step).rows
    ensures (step == Purge(id) && s.rows[id].status == Dead) ||
            (step.Settle? && id in Next(jsonb, s, step).acked && Dispatches(Next(jsonb, s, step), id) == 1)
  {
    hide Inv, Transacted, Extends, Dispatches, SlotOf;
    StepKeepsInv(jsonb, s, step);
    var t := Next(jsonb, s, step);
    if id in t.acked { AckedDispatched(t, id); }
  }

  lemma AckedDispatched(s: Sys, id: RowId)
    requires Inv(s) && id in s.acked
    ensures id in s.origins && Dispatches(s, id) == 1
  {
  }

  /** What the watchdog and an operator can do to a row: a reset puts a row in hand back
      in line with its attempts, a requeue a failed one without, a purge takes a failed
      one away. They touch nothing else. */
  lemma OperatorsOnRow(jsonb: Jsonb, s: Sys, step: Step, id: RowId)
    requires Enabled(s, step) && step in {ResetStale(id), Requeue(id), Purge(id)}
    ensures var t := Next(jsonb, s, step);
            t == s.(rows := t.rows) && (forall k | k in s.rows && k != id :: k in t.rows && t.rows[k] == s.rows[k]) &&
            t.rows.Keys == (if step == Purge(id) then s.rows.Keys - {id} else s.rows.Keys) &&
            (step == ResetStale(id) ==> s.rows[id].status == InHand && t.rows[id] == Row(Pending, s.rows[id].attempts)) &&
            (step == Requeue(id) ==> s.rows[id].status == Dead && t.rows[id] == Row(Pending, 0)) &&
            (step == Purge(id) ==> s.rows[id].status == Dead)
  {
  }

  // ---------------------------------------------------------------------------
  // Attempts
  // ---------------------------------------------------------------------------

  /** A waiting row has attempts left, and a row is given up exactly at the maximum. */
  predicate WithinBudget(r: Row, m: nat)
  {
    r.attempts <= m && (r.status == Pending ==> r.attempts < m) && (r.status == Dead ==> r.attempts == m)
  }

  /** A row that a dispatcher has in hand is marked so, with the attempts it was claimed with. */
  predicate HeldAs(s: Sys, item: Item) { item.id in s.rows ==> s.rows[item.id] == Row(InHand, item.attempts) }

  predicate ItemAt(s: Sys, w: WorkerId, i: nat) { w in s.tasks && i < |s.tasks[w].batch| }

  ghost predicate Budgeted(s: Sys, m: nat)
  {
    (forall id | id in s.rows :: WithinBudget(s.rows[id], m)) &&
    (forall w, i: nat | ItemAt(s, w, i) :: HeldAs(s, s.tasks[w].batch[i])) &&
    forall v, w, i: nat, j: nat | ItemAt(s, v, i) && ItemAt(s, w, j) && (v != w || i != j) ::
      s.tasks[v].batch[i].id != s.tasks[w].batch[j].id
  }

  lemma SettleKeepsBudget(s: Sys, w: WorkerId, m: nat, ok: bool)
    requires Inv(s) && Budgeted(s, m) && ItemAt(s, w, 0)
    ensures Budgeted(Settled(s, s.tasks[w].batch[0], ok, m).(tasks := s.tasks[w := Task(s.tasks[w].batch[1..], None)]), m)
  {
    var item := s.tasks[w].batch[0];
    var t := Settled(s, item, ok, m).(tasks := s.tasks[w := Task(s.tasks[w].batch[1..], None)]);
    hide Inv;
    assert HeldAs(s, item);
    assert forall id | id in t.rows && id != item.id :: id in s.rows && t.rows[id] == s.rows[id];
    assert item.id in t.rows ==> WithinBudget(t.rows[item.id], m);
    hide Settled, WithinBudget;
    forall v, i: nat | ItemAt(t, v, i)
      ensures ItemAt(s, v, if v == w then i + 1 else i) && t.tasks[v].batch[i] == s.tasks[v].batch[if v == w then i + 1 else i]
    {
    }
    forall v, i: nat | ItemAt(t, v, i) ensures HeldAs(t, t.tasks[v].batch[i]) {
      assert HeldAs(s, s.tasks[v].batch[if v == w then i + 1 else i]);
      assert ItemAt(s, v, if v == w then i + 1 else i) && t.tasks[v].batch[i].id != item.id;
    }
    hide HeldAs;
  }

  lemma ClaimKeepsBudget(jsonb: Jsonb, s: Sys, w: WorkerId, ids: seq<RowId>, m: nat)
    requires Budgeted(s, m) && Enabled(s, Claim(w, ids))
    ensures Budgeted(Next(jsonb, s, Claim(w, ids)), m)
  {
    var t := Next(jsonb, s, Claim(w, ids));
    assert forall v, i: nat | ItemAt(t, v, i) && v != w :: ItemAt(s, v, i) && t.tasks[v].batch[i] == s.tasks[v].batch[i];
    forall v, i: nat, j: nat | ItemAt(s, v, i) && j < |ids| ensures s.tasks[v].batch[i].id != ids[j] {
      assert HeldAs(s, s.tasks[v].batch[i]);
    }
  }

  lemma EnqueueKeepsBudget(jsonb: Jsonb, s: Sys, o: Origin, m: nat)
    requires Inv(s) && Budgeted(s, m) && m >= 1
    ensures Budgeted(Next(jsonb, s, Enqueue(o)), m)
  {
    var t := Next(jsonb, s, Enqueue(o));
    forall w, i: nat | ItemAt(t, w, i) ensures HeldAs(t, t.tasks[w].batch[i]) {
      assert ItemAt(s, w, i) && TaskInv(s, s.tasks[w]);
      assert s.tasks[w].batch[i].id in s.origins;
      assert HeldAs(s, s.tasks[w].batch[i]);
    }
    assert forall w, i: nat | ItemAt(t, w, i) :: ItemAt(s, w, i);
    hide Inv, TaskInv, HeldAs;
  }

  /** The step settles with this maximum, and is not a watchdog's. */
  predicate Counted(step: Step, m: nat) { !step.ResetStale? && (step.Settle? ==> step.maxAttempts == m) }

  lemma StepKeepsBudget(jsonb: Jsonb, s: Sys, step: Step, m: nat)
    requires Inv(s) && Budgeted(s, m) && Enabled(s, step) && Counted(step, m) && m >= 1
    ensures Budgeted(Next(jsonb, s, step), m)
  {
    hide Inv, Transacted;
    match step
    case Enqueue(o) => EnqueueKeepsBudget(jsonb, s, o, m);
    case Claim(w, ids) => ClaimKeepsBudget(jsonb, s, w, ids, m);
    case Settle(w, _, ackFails) => SettleKeepsBudget(s, w, m, s.tasks[w].sent.value && !ackFails);
    case _ => SmallStepKeepsBudget(jsonb, s, step, m);
  }

  lemma SmallStepKeepsBudget(jsonb: Jsonb, s: Sys, step: Step, m: nat)
    requires Budgeted(s, m) && Enabled(s, step) && m >= 1
    requires step.Send? || step.Crash? || step.Requeue? || step.Purge? || step.OtherSend?
    ensures Budgeted(Next(jsonb, s, step), m)
  {
    hide Transacted;
    var t := Next(jsonb, s, step);
    assert forall w, i: nat | ItemAt(t, w, i) :: ItemAt(s, w, i) && t.tasks[w].batch == s.tasks[w].batch;
    forall w, i: nat | ItemAt(t, w, i) ensures HeldAs(t, t.tasks[w].batch[i]) { assert HeldAs(s, s.tasks[w].batch[i]); }
  }

  /** Bounded attempts: in runs whose dispatchers share one maximum, and as long as
      no watchdog takes a row away from its dispatcher, no row is attempted more
      often than that between requeues, and a row is marked failed exactly when it
      has used up its attempts. */
  lemma {:induction false} AttemptsBounded(jsonb: Jsonb, steps: seq<Step>, m: nat)
    requires After(jsonb, steps).Some? && m >= 1 && forall i | 0 <= i < |steps| :: Counted(steps[i], m)
    ensures Budgeted(After(jsonb, steps).value, m)
  {
    if steps != [] {
      var n := |steps| - 1;
      assert forall i | 0 <= i < n :: steps[..n][i] == steps[i];
      ReachableInv(jsonb, steps[..n]);
      AttemptsBounded(jsonb, steps[..n], m);
      StepKeepsBudget(jsonb, After(jsonb, steps[..n]).value, steps[n], m);
    }
  }

  /** A watchdog's reset does not give the attempt back, but it does put a row that
      has used up its attempts back in line. */
  lemma ResetExceedsBudget(jsonb: Jsonb, s: Sys, id: RowId, m: nat)
    requires Budgeted(s, m) && id in s.rows && s.rows[id].status == InHand
    ensures var t := Next(jsonb, s, ResetStale(id));
            t.rows[id].attempts == s.rows[id].attempts && (WithinBudget(t.rows[id], m) <==> s.rows[id].attempts < m)
  {
  }

  // ---------------------------------------------------------------------------
  // Attempts with a watchdog
  // ---------------------------------------------------------------------------

  predicate Holds(batch: seq<Item>, id: RowId) { exists i :: 0 <= i < |batch| && batch[i].id == id }

  /** The batch has the row, and would put it back in line after an error. */
  predicate HoldsLow(batch: seq<Item>, id: RowId, m: nat) { exists i :: 0 <= i < |batch| && batch[i].id == id && batch[i].attempts < m }

  /** The dispatchers that have a row in hand: several after a reset. */
  function Holders(s: Sys, id: RowId): set<WorkerId> { set w | w in s.tasks && Holds(s.tasks[w].batch, id) }

  function LowHolders(s: Sys, id: RowId, m: nat): set<WorkerId> { set w | w in s.tasks && HoldsLow(s.tasks[w].batch, id, m) }

  predicate Unique(batch: seq<Item>) { forall i, j | 0 <= i < j < |batch| :: batch[i].id != batch[j].id }

  predicate UniqueBatches(s: Sys) { forall w | w in s.tasks :: Unique(s.tasks[w].batch) }

  /** What holds of a row with so many holders, so many of them low, that has been
      reset n times: the first sum bounds its claims, behind it and still to come. */
  predicate Allows(r: Row, holders: nat, low: nat, m: nat, n: nat)
  {
    r.attempts + (if r.status == Pending then 1 else 0) + low + (if r.attempts < m - 1 then m - 1 - r.attempts else 0) <= m + n &&
    low <= holders && holders + (if r.status == InHand then 0 else 1) <= 1 + n
  }

  predicate Allowance(s: Sys, id: RowId, m: nat, n: nat)
  {
    id in s.rows ==> Allows(s.rows[id], |Holders(s, id)|, |LowHolders(s, id, m)|, m, n)
  }

  lemma LowAreHolders(s: Sys, id: RowId, m: nat)
    ensures |LowHolders(s, id, m)| <= |Holders(s, id)|
  {
    assert LowHolders(s, id, m) <= Holders(s, id);
    Fewer(LowHolders(s, id, m), Holders(s, id));
  }

  lemma {:induction false} Fewer<T>(a: set<T>, b: set<T>)
    requires a <= b
    ensures |a| <= |b|
  {
    assert b == a + (b - a);
  }

  /** Where no batch changes, neither do the holders. */
  lemma SameHolders(s: Sys, t: Sys, id: RowId, m: nat)
    requires t.tasks.Keys == s.tasks.Keys && forall w | w in s.tasks :: t.tasks[w].batch == s.tasks[w].batch
    ensures Holders(t, id) == Holders(s, id) && LowHolders(t, id, m) == LowHolders(s, id, m)
  {
    hide Holds, HoldsLow;
  }

  lemma OneMore<T>(a: set<T>, x: T)
    ensures x !in a ==> |a + {x}| == |a| + 1
    ensures x in a ==> |a - {x}| == |a| - 1
    ensures x !in a ==> a - {x} == a
  {
  }

  lemma ClaimAllowance(jsonb: Jsonb, s: Sys, w: WorkerId, ids: seq<RowId>, m: nat, id: RowId, n: nat)
    requires Enabled(s, Claim(w, ids)) && m >= 1 && Allowance(s, id, m, n)
    ensures Allowance(Next(jsonb, s, Claim(w, ids)), id, m, n)
  {
    if id in s.rows {
      var t := Next(jsonb, s, Claim(w, ids));
      assert t.rows[id] == (if id in ids then Row(InHand, s.rows[id].attempts + 1) else s.rows[id]) && (id in ids ==> s.rows[id].status == Pending);
      hide Holders, LowHolders, Next, Enabled;
      ClaimHolders(jsonb, s, w, ids, m, id);
      OneMore(Holders(s, id), w);
      OneMore(LowHolders(s, id, m), w);
    }
  }

  lemma ClaimHolders(jsonb: Jsonb, s: Sys, w: WorkerId, ids: seq<RowId>, m: nat, id: RowId)
    requires Enabled(s, Claim(w, ids)) && id in s.rows
    ensures w !in Holders(s, id) && w !in LowHolders(s, id, m)
    ensures var t := Next(jsonb, s, Claim(w, ids));
            Holders(t, id) == (if id in ids then Holders(s, id) + {w} else Holders(s, id)) &&
            LowHolders(t, id, m) == if id in ids && s.rows[id].attempts + 1 < m then LowHolders(s, id, m) + {w} else LowHolders(s, id, m)
  {
    ClaimedBatch(jsonb, s, w, ids, m, id);
    hide Holds, HoldsLow, Unique;
    var t := Next(jsonb, s, Claim(w, ids));
    assert forall v | v in t.tasks && v != w :: v in s.tasks && t.tasks[v] == s.tasks[v];
  }

  lemma ClaimedBatch(jsonb: Jsonb, s: Sys, w: WorkerId, ids: seq<RowId>, m: nat, id: RowId)
    requires Enabled(s, Claim(w, ids)) && id in s.rows
    ensures var batch := Next(jsonb, s, Claim(w, ids)).tasks[w].batch;
            Unique(batch) && (Holds(batch, id) <==> id in ids) && (HoldsLow(batch, id, m) <==> id in ids && s.rows[id].attempts + 1 < m)
  {
    var batch := Next(jsonb, s, Claim(w, ids)).tasks[w].batch;
    assert forall i | 0 <= i < |ids| :: batch[i] == Item(ids[i], s.rows[ids[i]].attempts + 1);
    if id in ids {
      var i :| 0 <= i < |ids| && ids[i] == id;
      assert batch[i].id == id;
    }
  }

  lemma SettledBatch(batch: seq<Item>, m: nat, id: RowId)
    requires batch != [] && Unique(batch)
    ensures Unique(batch[1..])
    ensures Holds(batch[1..], id) <==> Holds(batch, id) && batch[0].id != id
    ensures HoldsLow(batch[1..], id, m) <==> HoldsLow(batch, id, m) && batch[0].id != id
    ensures batch[0].id == id ==> Holds(batch, id) && (HoldsLow(batch, id, m) <==> batch[0].attempts < m)
  {
    forall i | 0 < i < |batch| ensures batch[1..][i - 1] == batch[i] { }
  }

  lemma SettleAllowance(s: Sys, w: WorkerId, ok: bool, m: nat, id: RowId, n: nat)
    requires w in s.tasks && s.tasks[w].batch != [] && UniqueBatches(s) && m >= 1 && Allowance(s, id, m, n)
    ensures Allowance(Settled(s, s.tasks[w].batch[0], ok, m).(tasks := s.tasks[w := Task(s.tasks[w].batch[1..], None)]), id, m, n)
  {
    var batch := s.tasks[w].batch;
    var t := Settled(s, batch[0], ok, m).(tasks := s.tasks[w := Task(batch[1..], None)]);
    if id in t.rows {
      SettleHolders(s, t, w, m, id);
      OneMore(Holders(s, id), w);
      OneMore(LowHolders(s, id, m), w);
      LowAreHolders(t, id, m);
      assert t.rows[id] == if batch[0].id != id then s.rows[id] else s.rows[id].(status := if batch[0].attempts >= m then Dead else Pending);
      hide Holders, LowHolders, UniqueBatches, Settled, Allows;
      if batch[0].id == id {
        ReleaseAllows(s.rows[id], batch[0].attempts, |Holders(s, id)|, |LowHolders(s, id, m)|, |Holders(t, id)|, |LowHolders(t, id, m)|, m, n);
      }
    }
  }

  lemma ReleaseAllows(r: Row, attempts: nat, h: nat, l: nat, h': nat, l': nat, m: nat, n: nat)
    requires Allows(r, h, l, m, n) && h == h' + 1 && l == l' + (if attempts < m then 1 else 0) && l' <= h'
    ensures Allows(r.(status := if attempts >= m then Dead else Pending), h', l', m, n)
  {
  }

  lemma SettleHolders(s: Sys, t: Sys, w: WorkerId, m: nat, id: RowId)
    requires w in s.tasks && s.tasks[w].batch != [] && UniqueBatches(s)
    requires t.tasks == s.tasks[w := Task(s.tasks[w].batch[1..], None)]
    ensures var first := s.tasks[w].batch[0];
            (first.id == id ==> w in Holders(s, id) && (first.attempts < m <==> w in LowHolders(s, id, m))) &&
            Holders(t, id) == (if first.id == id then Holders(s, id) - {w} else Holders(s, id)) &&
            LowHolders(t, id, m) == if first.id == id then LowHolders(s, id, m) - {w} else LowHolders(s, id, m)
  {
    SettledBatch(s.tasks[w].batch, m, id);
    hide Holds, HoldsLow, Unique;
    assert forall v | v in t.tasks && v != w :: v in s.tasks && t.tasks[v] == s.tasks[v];
  }

  lemma CrashAllowance(s: Sys, w: WorkerId, m: nat, id: RowId, n: nat)
    requires w in s.tasks && Allowance(s, id, m, n)
    ensures Allowance(s.(tasks := s.tasks - {w}), id, m, n)
  {
    var t := s.(tasks := s.tasks - {w});
    hide Holds, HoldsLow;
    assert Holders(t, id) <= Holders(s, id) && LowHolders(t, id, m) <= LowHolders(s, id, m);
    Fewer(Holders(t, id), Holders(s, id));
    Fewer(LowHolders(t, id, m), LowHolders(s, id, m));
    LowAreHolders(t, id, m);
  }

  lemma EnqueueAllowance(jsonb: Jsonb, s: Sys, o: Origin, m: nat, id: RowId, n: nat)
    requires Inv(s) && m >= 1 && Allowance(s, id, m, n)
    ensures Allowance(Next(jsonb, s, Enqueue(o)), id, m, n)
  {
    var t := Next(jsonb, s, Enqueue(o));
    SameHolders(s, t, id, m);
    if id == NextId(s) {
      forall w | w in s.tasks ensures !Holds(s.tasks[w].batch, id) { assert TaskInv(s, s.tasks[w]); }
      assert Holders(s, id) == {};
      LowAreHolders(s, id, m);
    }
  }

  /** The allowance of a row grows by its resets alone. */
  lemma StepAllowance(jsonb: Jsonb, s: Sys, step: Step, m: nat, id: RowId, n: nat)
    requires Inv(s) && UniqueBatches(s) && Enabled(s, step) && (step.Settle? ==> step.maxAttempts == m) && m >= 1
    requires Allowance(s, id, m, n)
    ensures Allowance(Next(jsonb, s, step), id, m, n + if step == ResetStale(id) then 1 else 0)
  {
    hide Inv, Transacted, UniqueBatches, Allowance, Settled;
    match step
    case Enqueue(o) => EnqueueAllowance(jsonb, s, o, m, id, n);
    case Claim(w, ids) => ClaimAllowance(jsonb, s, w, ids, m, id, n);
    case Settle(w, _, ackFails) => SettleAllowance(s, w, s.tasks[w].sent.value && !ackFails, m, id, n);
    case Crash(w) => CrashAllowance(s, w, m, id, n);
    case _ => RowAllowance(jsonb, s, step, m, id, n);
  }

  /** Steps on a row or on the bus, which leave the batches as they are. */
  lemma RowAllowance(jsonb: Jsonb, s: Sys, step: Step, m: nat, id: RowId, n: nat)
    requires Enabled(s, step) && m >= 1 && Allowance(s, id, m, n)
    requires step.Send? || step.ResetStale? || step.Requeue? || step.Purge? || step.OtherSend?
    ensures Allowance(Next(jsonb, s, step), id, m, n + if step == ResetStale(id) then 1 else 0)
  {
    SameHolders(s, Next(jsonb, s, step), id, m);
    hide Transacted, Holders, LowHolders;
  }

  lemma StepUnique(jsonb: Jsonb, s: Sys, step: Step)
    requires UniqueBatches(s) && Enabled(s, step)
    ensures UniqueBatches(Next(jsonb, s, step))
  {
    hide Transacted;
    var t := Next(jsonb, s, step);
    if step.Settle? { SettledBatch(s.tasks[step.w].batch, 0, 0); }
    if step.Claim? {
      assert forall i | 0 <= i < |step.ids| :: t.tasks[step.w].batch[i].id == step.ids[i];
    }
    assert forall v | v in t.tasks :: v in s.tasks || step.Claim?;
  }

  function Resets(steps: seq<Step>, id: RowId): nat
  {
    if steps == [] then 0 else Resets(steps[..|steps| - 1], id) + if steps[|steps| - 1] == ResetStale(id) then 1 else 0
  }

  lemma {:induction false} AllowanceKept(jsonb: Jsonb, steps: seq<Step>, m: nat, id: RowId)
    requires After(jsonb, steps).Some? && m >= 1 && forall i | 0 <= i < |steps| && steps[i].Settle? :: steps[i].maxAttempts == m
    ensures UniqueBatches(After(jsonb, steps).value) && Allowance(After(jsonb, steps).value, id, m, Resets(steps, id))
  {
    if steps != [] {
      var n := |steps| - 1;
      assert forall i | 0 <= i < n :: steps[..n][i] == steps[i];
      AllowanceKept(jsonb, steps[..n], m, id);
      ReachableInv(jsonb, steps[..n]);
      var s := After(jsonb, steps[..n]).value;
      hide Inv, UniqueBatches, Allowance, Next;
      StepUnique(jsonb, s, steps[n]);
      StepAllowance(jsonb, s, steps[n], m, id, Resets(steps[..n], id));
    }
  }

  /** Bounded attempts with a watchdog: in any run whose dispatchers share one
      maximum, a row has never been attempted more often since it was enqueued or
      requeued than that maximum and one time more for each reset of the row. (A
      reset before a requeue counts too: the dispatcher it took the row from can
      still release it after the requeue.) */
  lemma AttemptsAndResets(jsonb: Jsonb, steps: seq<Step>, m: nat, id: RowId)
    requires After(jsonb, steps).Some? && m >= 1 && forall i | 0 <= i < |steps| && steps[i].Settle? :: steps[i].maxAttempts == m
    ensures id in After(jsonb, steps).value.rows ==> After(jsonb, steps).value.rows[id].attempts <= m + Resets(steps, id)
  {
    AllowanceKept(jsonb, steps, m, id);
  }

  // ---------------------------------------------------------------------------
  // One dispatcher round
  // ---------------------------------------------------------------------------

  datatype RoundResult = RoundResult(claimed: nat, dispatched: nat, failed: nat, released: nat)

  /** A claimed row, whether it was acknowledged, and the row as settling left it. */
  datatype Settlement = Settlement(item: Item, acked: bool, left: Option<Row>)

  function RowIn(s: Sys, id: RowId): Option<Row> { if id in s.rows then Some(s.rows[id]) else None }

  /** What became of a row: it is gone if it was acknowledged; if not, and no one else
      has removed it, it is given up when it has used up its attempts and waits again
      otherwise. */
  predicate SettledRight(x: Settlement, maxAttempts: nat)
  {
    if x.acked then x.left.None?
    else x.left.Some? ==> x.left.value.status == if x.item.attempts >= maxAttempts then Dead else Pending
  }

  /** What happens to one row of a round: what the handler would do in each transaction
      of its send, and whether the acknowledgement fails. */
  datatype Fate = Fate(handler: nat -> HandlerOutcome, ackFails: bool)

  /** The handler's run would complete the slot. */
  predicate Completes(jsonb: Jsonb, o: HandlerOutcome) { o.Returns? && jsonb(OrNullResult(o.result)).Some? }

  lemma SentIsDone(s: Sys, w: WorkerId)
    requires Inv(s) && w in s.tasks
    ensures forall i | 0 <= i < |s.tasks[w].batch| :: s.tasks[w].batch[i].id in s.origins
    ensures s.tasks[w].sent == Some(true) ==> s.tasks[w].batch != [] && SlotDone(s, s.tasks[w].batch[0].id)
  {
    assert TaskInv(s, s.tasks[w]);
  }

  lemma CompletesSucceeds(jsonb: Jsonb, db: BusDb, k: SlotKey, o: HandlerOutcome)
    requires SlotsExact(db) && Completes(jsonb, o)
    ensures Transacted(jsonb, db, Attempt(k, false, o, false, false, false)).1.Success?
  {
    assert k in db.slots ==> db.slots[k] != InFlight;
  }

  /** How a round counts its settled rows. */
  function Tally(log: seq<Settlement>, maxAttempts: nat): (r: RoundResult)
    ensures r.claimed == |log| == r.dispatched + r.failed + r.released
  {
    if log == [] then RoundResult(0, 0, 0, 0)
    else
      var r, last := Tally(log[..|log| - 1], maxAttempts), log[|log| - 1];
      if last.acked then r.(claimed := r.claimed + 1, dispatched := r.dispatched + 1)
      else if last.item.attempts >= maxAttempts then r.(claimed := r.claimed + 1, failed := r.failed + 1)
      else r.(claimed := r.claimed + 1, released := r.released + 1)
  }

  lemma TallyStep(log: seq<Settlement>, last: Settlement, maxAttempts: nat)
    ensures var r := Tally(log, maxAttempts);
            Tally(log + [last], maxAttempts) ==
              if last.acked then RoundResult(|log| + 1, r.dispatched + 1, r.failed, r.released)
              else if last.item.attempts >= maxAttempts then RoundResult(|log| + 1, r.dispatched, r.failed + 1, r.released)
              else RoundResult(|log| + 1, r.dispatched, r.failed, r.released + 1)
  {
    assert (log + [last])[..|log|] == log;
  }

  function AckedAt(log: seq<Settlement>): set<nat> { set i | 0 <= i < |log| && log[i].acked }

  function GivenUpAt(log: seq<Settlement>, maxAttempts: nat): set<nat>
  {
    set i | 0 <= i < |log| && !log[i].acked && log[i].item.attempts >= maxAttempts
  }

  function ReleasedAt(log: seq<Settlement>, maxAttempts: nat): set<nat>
  {
    set i | 0 <= i < |log| && !log[i].acked && log[i].item.attempts < maxAttempts
  }

  lemma AckedNext(log: seq<Settlement>, x: Settlement)
    ensures |AckedAt(log + [x])| == |AckedAt(log)| + if x.acked then 1 else 0
  {
    assert AckedAt(log + [x]) == if x.acked then AckedAt(log) + {|log|} else AckedAt(log);
  }

  lemma GivenUpNext(log: seq<Settlement>, x: Settlement, maxAttempts: nat)
    ensures |GivenUpAt(log + [x], maxAttempts)| == |GivenUpAt(log, maxAttempts)| + if !x.acked && x.item.attempts >= maxAttempts then 1 else 0
  {
    assert GivenUpAt(log + [x], maxAttempts) ==
           if !x.acked && x.item.attempts >= maxAttempts then GivenUpAt(log, maxAttempts) + {|log|} else GivenUpAt(log, maxAttempts);
  }

  lemma ReleasedNext(log: seq<Settlement>, x: Settlement, maxAttempts: nat)
    ensures |ReleasedAt(log + [x], maxAttempts)| == |ReleasedAt(log, maxAttempts)| + if !x.acked && x.item.attempts < maxAttempts then 1 else 0
  {
    assert ReleasedAt(log + [x], maxAttempts) ==
           if !x.acked && x.item.attempts < maxAttempts then ReleasedAt(log, maxAttempts) + {|log|} else ReleasedAt(log, maxAttempts);
  }

  /** The counters are the numbers of rows acknowledged, given up and released. */
  lemma {:induction false} TallyCounts(log: seq<Settlement>, maxAttempts: nat)
    ensures var r := Tally(log, maxAttempts);
            r.claimed == |log| && r.dispatched == |AckedAt(log)| &&
            r.failed == |GivenUpAt(log, maxAttempts)| && r.released == |ReleasedAt(log, maxAttempts)|
  {
    if log != [] {
      var init, last := log[..|log| - 1], log[|log| - 1];
      TallyCounts(init, maxAttempts);
      hide AckedAt, GivenUpAt, ReleasedAt;
      AckedNext(init, last);
      GivenUpNext(init, last, maxAttempts);
      ReleasedNext(init, last, maxAttempts);
      assert init + [last] == log;
    }
  }

  predicate AllAcked(log: seq<Settlement>, acked: set<RowId>)
  {
    forall i | 0 <= i < |log| && log[i].acked :: log[i].item.id in acked
  }

  lemma AckedOnce(s: Sys, log: seq<Settlement>)
    requires Inv(s) && AllAcked(log, s.acked)
    ensures forall i | 0 <= i < |log| && log[i].acked ::
              log[i].item.id in s.origins && Dispatches(s, log[i].item.id) == 1
  {
  }

  /** What a claim may take: pending rows that are due and that no one else is just
      claiming. Fair claiming takes no more than the oldest due row of a tenant. */
  datatype Choice = Choice(due: set<RowId>, locked: set<RowId>, fair: bool)

  predicate Waiting(s: Sys, c: Choice, id: RowId) { id in s.rows && s.rows[id].status == Pending && id in c.due }

  predicate SameTenant(s: Sys, a: RowId, b: RowId)
  {
    a in s.origins && b in s.origins && s.origins[a].tenantId == s.origins[b].tenantId
  }

  predicate Claimable(s: Sys, c: Choice, id: RowId)
  {
    Waiting(s, c, id) && id !in c.locked && (c.fair ==> forall x | x in s.rows && Waiting(s, c, x) && SameTenant(s, x, id) :: id <= x)
  }

  /** Without fairness a row can be claimed exactly if it is pending, due and not locked;
      with it no two rows of one tenant can, and a tenant with a waiting row has the
      oldest of them to offer, unless that one is locked. */
  lemma ClaimableExactly(s: Sys, c: Choice, id: RowId) returns (oldest: RowId)
    requires Inv(s)
    ensures !c.fair ==> (Claimable(s, c, id) <==> id in s.rows && s.rows[id].status == Pending && id in c.due && id !in c.locked)
    ensures c.fair ==> forall a, b | Claimable(s, c, a) && Claimable(s, c, b) && SameTenant(s, a, b) :: a == b
    ensures id in s.rows && s.rows[id].status == Pending && id in c.due ==>
              oldest in s.rows && s.rows[oldest].status == Pending && oldest in c.due && oldest <= id &&
              s.origins[oldest].tenantId == s.origins[id].tenantId &&
              (Claimable(s, c, oldest) <==> oldest !in c.locked) &&
              forall x | x in s.rows && s.rows[x].status == Pending && x in c.due && s.origins[x].tenantId == s.origins[id].tenantId :: oldest <= x
  {
    hide SlotsExact, TaskInv, SlotOf;
    oldest := id;
    if Waiting(s, c, id) {
      while exists x :: x in s.rows && Waiting(s, c, x) && SameTenant(s, x, id) && x < oldest
        invariant Waiting(s, c, oldest) && SameTenant(s, oldest, id) && oldest <= id
        decreases oldest
      {
        var x :| x in s.rows && Waiting(s, c, x) && SameTenant(s, x, id) && x < oldest;
        oldest := x;
      }
    }
  }

  predicate Increasing(ids: seq<RowId>) { forall i, j | 0 <= i < j < |ids| :: ids[i] < ids[j] }

  /** The page is the oldest claimable rows, n of them if there are so many, each with
      one attempt more. */
  predicate PageOf(s: Sys, c: Choice, n: nat, page: seq<Item>)
  {
    |page| <= n && Increasing(Ids(page)) &&
    (forall i | 0 <= i < |page| :: Claimable(s, c, page[i].id) && page[i].attempts == s.rows[page[i].id].attempts + 1) &&
    forall id | id in s.rows && Claimable(s, c, id) :: id in Ids(page) || (|page| == n && forall k | k in Ids(page) :: k < id)
  }

  function Ids(page: seq<Item>): (r: seq<RowId>)
    ensures |r| == |page| && forall i | 0 <= i < |page| :: r[i] == page[i].id
  {
    seq(|page|, i requires 0 <= i < |page| => page[i].id)
  }

  class SagaCommandDispatcher {
    const jsonb: Jsonb
    const me: WorkerId
    const batchSize: nat
    const maxAttempts: nat
    /** Committed state, shared with all other dispatchers. */
    var sys: Sys

    constructor (jsonb: Jsonb, me: WorkerId, batchSize: nat, maxAttempts: nat)
      ensures this.jsonb == jsonb && this.me == me && this.batchSize == batchSize && this.maxAttempts == maxAttempts
      ensures sys == INITIAL
    {
      this.jsonb, this.me, this.batchSize, this.maxAttempts := jsonb, me, batchSize, maxAttempts;
      sys := INITIAL;
    }

    /** Steps of other dispatchers, watchdogs and operators. Callers may rely on no
        more than the contract. */
    method Interference()
      requires Inv(sys)
      modifies this
      ensures Inv(sys) && Extends(old(sys), sys)
      ensures me in sys.tasks <==> me in old(sys.tasks)
      ensures me in sys.tasks ==> sys.tasks[me] == old(sys.tasks[me])
    {
    }

    /** claimBatch: the oldest claimable rows, up to the batch size, which are then in
        hand. */
    method ClaimBatch(c: Choice)
      requires Inv(sys) && me !in sys.tasks
      modifies this
      ensures Inv(sys) && Extends(old(sys), sys) && me in sys.tasks && sys.tasks[me].sent.None?
      ensures PageOf(old(sys), c, batchSize, sys.tasks[me].batch)
      ensures forall item | item in sys.tasks[me].batch :: item.id in sys.rows && sys.rows[item.id] == Row(InHand, item.attempts)
    {
      hide SlotOf, SlotsExact, TaskInv;
      var ids: seq<RowId> := [];
      var last := |sys.origins|;
      var id := 1;
      while id <= last && |ids| < batchSize
        invariant sys == old(sys) && 1 <= id <= last + 1 && |ids| <= batchSize && Increasing(ids)
        invariant forall k | k in ids :: k < id && Claimable(sys, c, k)
        invariant forall k | 1 <= k < id && Claimable(sys, c, k) :: k in ids
      {
        hide Inv, Claimable;
        IncreasingOn(ids, id);
        if Claimable(sys, c, id) { ids := ids + [id]; }
        id := id + 1;
      }
      ClaimsPage(jsonb, sys, me, ids, c, batchSize, id);
      StepKeepsInv(jsonb, sys, Claim(me, ids));
      hide Inv, Claimable;
      sys := Next(jsonb, sys, Claim(me, ids));
    }

    /** bus.send on the first row: transactions until one succeeds or the bus
        gives up, with other dispatchers in between. It fails only if no run of the
        handler would have completed. */
    method SendHead(handler: nat -> HandlerOutcome, maxTries: nat) returns (ok: bool)
      requires Inv(sys) && me in sys.tasks && sys.tasks[me].batch != [] && sys.tasks[me].sent.None?
      modifies this
      ensures Inv(sys) && Extends(old(sys), sys) && me in sys.tasks
      ensures sys.tasks[me] == Task(old(sys).tasks[me].batch, Some(ok))
      ensures ok ==> SlotDone(sys, sys.tasks[me].batch[0].id)
      ensures !ok ==> forall n | 0 <= n <= maxTries :: !Completes(jsonb, handler(n))
    {
      ExtendsReflexive(sys);
      hide Completes, Later, SlotDone, Inv, Extends;
      ok := false;
      ghost var batch := sys.tasks[me].batch;
      var tries := 0;
      while sys.tasks[me].sent.None?
        invariant Inv(sys) && Extends(old(sys), sys) && me in sys.tasks && tries <= maxTries
        invariant sys.tasks[me].batch == batch
        invariant forall n | 0 <= n < tries :: !Completes(jsonb, handler(n))
        invariant sys.tasks[me].sent == Some(false) ==> tries == maxTries && !Completes(jsonb, handler(tries))
        decreases sys.tasks[me].sent.None?, maxTries - tries
      {
        ghost var before := sys;
        TrySend(handler(tries), tries == maxTries);
        ExtendsTransitive(old(sys), before, sys);
        if sys.tasks[me].sent.None? { tries := tries + 1; }
      }
      SentIsDone(sys, me);
      ok := sys.tasks[me].sent.value;
    }

    /** One transaction of a send, and what others do behind it. */
    method TrySend(outcome: HandlerOutcome, givesUp: bool)
      requires Inv(sys) && me in sys.tasks && sys.tasks[me].batch != [] && sys.tasks[me].sent.None?
      modifies this
      ensures Inv(sys) && Extends(old(sys), sys) && me in sys.tasks && sys.tasks[me].batch == old(sys).tasks[me].batch
      ensures sys.tasks[me].sent == Some(true) || sys.tasks[me].sent == if givesUp then Some(false) else None
      ensures Completes(jsonb, outcome) ==> sys.tasks[me].sent == Some(true)
    {
      assert TaskInv(sys, sys.tasks[me]);
      if Completes(jsonb, outcome) { SentIfCompletes(sys, outcome, givesUp); }
      hide SlotOf, Transacted, Later, Completes, TaskInv, SlotDone;
      StepKeepsInv(jsonb, sys, Step.Send(me, outcome, givesUp));
      ghost var before := sys;
      sys := Next(jsonb, sys, Step.Send(me, outcome, givesUp));
      hide Inv, Next;
      ghost var sent := sys;
      Interference();
      ExtendsTransitive(before, sent, sys);
    }

    lemma SentIfCompletes(s: Sys, outcome: HandlerOutcome, givesUp: bool)
      requires Inv(s) && Enabled(s, Step.Send(me, outcome, givesUp)) && Completes(jsonb, outcome)
      ensures Next(jsonb, s, Step.Send(me, outcome, givesUp)).tasks[me].sent == Some(true)
    {
      var id := s.tasks[me].batch[0].id;
      CompletesSucceeds(jsonb, s.bus, SlotOf(s.origins[id], id), outcome);
      hide Transacted, SlotOf, Completes;
    }

    /** ack after a success, release or failure mark after an error; an ack that
        fails counts as an error of the send. An acknowledged row is gone; any other
        is given up or waits again; nothing else changes. */
    method SettleHead(ok: bool, ackFails: bool) returns (acked: bool)
      requires Inv(sys) && me in sys.tasks && sys.tasks[me].batch != [] && sys.tasks[me].sent == Some(ok)
      modifies this
      ensures Inv(sys) && Extends(old(sys), sys) && me in sys.tasks
      ensures sys.tasks[me] == Task(old(sys).tasks[me].batch[1..], None)
      ensures acked == (ok && !ackFails)
      ensures acked ==> old(sys).tasks[me].batch[0].id in sys.acked
      ensures var item, before := old(sys).tasks[me].batch[0], old(sys).rows;
              sys.rows == if acked then before - {item.id}
                          else if item.id !in before then before
                          else before[item.id := Row(if item.attempts >= maxAttempts then Dead else Pending, before[item.id].attempts)]
      ensures sys.bus == old(sys).bus && sys.origins == old(sys).origins && forall v | v != me :: v in sys.tasks <==> v in old(sys).tasks
      ensures forall v | v in sys.tasks && v != me :: sys.tasks[v] == old(sys).tasks[v]
    {
      acked := ok && !ackFails;
      StepKeepsInv(jsonb, sys, Settle(me, maxAttempts, ackFails));
      SettleKeepsInv(sys, me, maxAttempts, ackFails, Next(jsonb, sys, Settle(me, maxAttempts, ackFails)));
      hide Inv, Extends;
      sys := Next(jsonb, sys, Settle(me, maxAttempts, ackFails));
    }

    /** The body of the round's loop: one row sent and settled. */
    method DispatchHead(fate: Fate, maxTries: nat) returns (x: Settlement)
      requires Inv(sys) && me in sys.tasks && sys.tasks[me].batch != [] && sys.tasks[me].sent.None?
      modifies this
      ensures Inv(sys) && Extends(old(sys), sys) && me in sys.tasks
      ensures sys.tasks[me] == Task(old(sys).tasks[me].batch[1..], None)
      ensures x.item == old(sys).tasks[me].batch[0] && SettledRight(x, maxAttempts)
      ensures x.acked ==> x.item.id in sys.acked
      ensures !x.acked ==> fate.ackFails || forall n | 0 <= n <= maxTries :: !Completes(jsonb, fate.handler(n))
    {
      hide Inv, Later, Next, Enabled, Completes;
      var row := sys.tasks[me].batch[0];
      ghost var before := sys;
      var ok := SendHead(fate.handler, maxTries);
      ghost var sent := sys;
      var acked := SettleHead(ok, fate.ackFails);
      x := Settlement(row, acked, RowIn(sys, row.id));
      ghost var settled := sys;
      Interference();
      ExtendsTransitive(before, sent, settled);
      ExtendsTransitive(before, settled, sys);
    }

    /** runOnce: claim, then send and settle row by row, with other dispatchers
        interleaved between any two transactions. The rows of the page that the
        queue has given out are settled once each, in order, and counted under what
        happened to them: a dispatched row is gone and its effects are committed
        exactly once, a failed one is given up, a released one waits again. A row
        fails only if its acknowledgement does or no run of its handler completes. */
    method RunOnce(c: Choice, fates: nat -> Fate, maxTries: nat) returns (r: RoundResult, ghost page: seq<Item>, ghost log: seq<Settlement>)
      requires Inv(sys) && me !in sys.tasks
      modifies this
      ensures Inv(sys) && Extends(old(sys), sys) && me !in sys.tasks
      ensures PageOf(old(sys), c, batchSize, page)
      ensures |log| == |page| && forall i | 0 <= i < |log| :: log[i].item == page[i] && SettledRight(log[i], maxAttempts)
      ensures forall i | 0 <= i < |log| && !log[i].acked :: fates(i).ackFails || forall n | 0 <= n <= maxTries :: !Completes(jsonb, fates(i).handler(n))
      ensures r == Tally(log, maxAttempts) && r.claimed <= batchSize
      ensures forall i | 0 <= i < |log| && log[i].acked ::
                var id := log[i].item.id; id in sys.acked && id in sys.origins && Dispatches(sys, id) == 1
    {
      hide Later, Next, Enabled, SlotsExact, TaskInv, SlotOf, PageOf, Completes, SettledRight;
      log := [];
      ClaimBatch(c);
      PageSize(old(sys), c, batchSize, sys.tasks[me].batch);
      page := sys.tasks[me].batch;
      var claimed := |sys.tasks[me].batch|;
      var n, dispatched, failed, released := 0, 0, 0, 0;
      while sys.tasks[me].batch != []
        invariant Inv(sys) && Extends(old(sys), sys) && me in sys.tasks && sys.tasks[me].sent.None?
        invariant claimed == |page| && n == |log| <= |page| && sys.tasks[me].batch == page[|log|..]
        invariant forall i | 0 <= i < |log| :: log[i].item == page[i] && SettledRight(log[i], maxAttempts)
        invariant Excused(log, fates, maxTries)
        invariant RoundResult(|log|, dispatched, failed, released) == Tally(log, maxAttempts)
        invariant AllAcked(log, sys.acked)
        decreases |sys.tasks[me].batch|
      {
        hide Inv, Excused;
        ghost var before := sys;
        var x := DispatchHead(fates(n), maxTries);
        ExtendsTransitive(old(sys), before, sys);
        if x.acked {
          dispatched := dispatched + 1;
        } else if x.item.attempts >= maxAttempts {
          failed := failed + 1;
        } else {
          released := released + 1;
        }
        TallyStep(log, x, maxAttempts);
        ExcusedStep(log, x, fates, maxTries);
        log := log + [x];
        n := n + 1;
      }
      ghost var before := sys;
      Finish();
      ExtendsTransitive(old(sys), before, sys);
      AckedOnce(sys, log);
      hide AllAcked;
      r := RoundResult(claimed, dispatched, failed, released);
    }

    /** Every row that was not acknowledged has a reason for it. */
    ghost predicate Excused(log: seq<Settlement>, fates: nat -> Fate, maxTries: nat)
    {
      forall i | 0 <= i < |log| && !log[i].acked :: fates(i).ackFails || forall n | 0 <= n <= maxTries :: !Completes(jsonb, fates(i).handler(n))
    }

    lemma ExcusedStep(log: seq<Settlement>, x: Settlement, fates: nat -> Fate, maxTries: nat)
      requires Excused(log, fates, maxTries)
      requires !x.acked ==> fates(|log|).ackFails || forall n | 0 <= n <= maxTries :: !Completes(jsonb, fates(|log|).handler(n))
      ensures Excused(log + [x], fates, maxTries)
    {
      hide Completes;
    }

    /** The round ends with nothing left in hand. */
    method Finish()
      requires Inv(sys) && me in sys.tasks
      modifies this
      ensures Inv(sys) && Extends(old(sys), sys) && me !in sys.tasks && sys.acked == old(sys.acked)
    {
      StepKeepsInv(jsonb, sys, Crash(me));
      hide Inv, Extends;
      sys := Next(jsonb, sys, Crash(me));
    }
  }

  lemma IncreasingOn(ids: seq<RowId>, id: RowId)
    requires Increasing(ids) && forall k | k in ids :: k < id
    ensures Increasing(ids + [id])
  {
    assert forall i | 0 <= i < |ids| :: ids[i] in ids;
  }

  lemma PageSize(s: Sys, c: Choice, n: nat, page: seq<Item>)
    requires PageOf(s, c, n, page)
    ensures |page| <= n
  {
  }

  /** Claiming the claimable rows below a bound, all of them or n, claims a page. */
  lemma ClaimsPage(jsonb: Jsonb, s: Sys, w: WorkerId, ids: seq<RowId>, c: Choice, n: nat, bound: RowId)
    requires Inv(s) && w !in s.tasks && Increasing(ids) && |ids| <= n
    requires forall k | k in ids :: k < bound && Claimable(s, c, k)
    requires forall k | 1 <= k < bound && Claimable(s, c, k) :: k in ids
    requires bound > |s.origins| || |ids| == n
    ensures Enabled(s, Claim(w, ids))
    ensures var t := Next(jsonb, s, Claim(w, ids));
            PageOf(s, c, n, t.tasks[w].batch) &&
            forall item | item in t.tasks[w].batch :: item.id in t.rows && t.rows[item.id] == Row(InHand, item.attempts)
  {
    forall i | 0 <= i < |ids| ensures ids[i] in s.rows && s.rows[ids[i]].status == Pending { assert ids[i] in ids; }
    var batch := Next(jsonb, s, Claim(w, ids)).tasks[w].batch;
    assert Ids(batch) == ids;
    forall id | id in s.rows && Claimable(s, c, id) ensures id in ids || (|ids| == n && forall k | k in ids :: k < id) {
      assert 1 <= id <= |s.origins|;
    }
    forall i | 0 <= i < |batch| ensures Claimable(s, c, batch[i].id) { assert ids[i] in ids; }
    hide Inv, Claimable;
  }
}
