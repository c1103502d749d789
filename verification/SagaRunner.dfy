/** Saga transitions: one delivery applied to one instance, the worker that does
    it against a shared database, and any interleaving of workers
    (packages/sagas/src/saga-runner.ts, packages/sagas/src/saga-as-async-projection.ts,
    packages/sagas-postgres/src/pg-saga-state-store.ts). */
module SagaRunner {
  import opened Wrappers

  /** Tenant, saga name and instance id. */
  type Key = string

  datatype Status = Active | Completed | Failed

  datatype Instance<S> = Instance(state: S, stateVersion: nat, status: Status, schemaVersion: int, lastEventPos: Option<int>)

  datatype Reaction<S, C> = Reaction(newState: S, commands: seq<C>, end: bool)

  datatype Delivery<E, M> = EventDelivery(pos: int, event: E) | TimerDelivery(instance: Key, timer: M)

  /** A saga definition: a pure reducer with its routing and its upcaster. */
  datatype Saga<!S, !E, !M, !C> = Saga(
    version: int, correlate: E -> Option<Key>, starts: E -> bool, initial: E -> S,
    react: (S, E) -> Reaction<S, C>, reactToTimer: Option<(S, M) -> Reaction<S, C>>, upcaster: Option<(S, int) -> S>)

  datatype SkipReason = NoCorrelation | NoInstance | AlreadyApplied | InstanceTerminal

  datatype Outcome<S, C> =
    | Skipped(reason: SkipReason)
    | Applied(instance: Instance<S>, commands: seq<C>)
    | Concurrent

  /** The instance a delivery is for. */
  function Target<S, E, M, C>(saga: Saga<S, E, M, C>, d: Delivery<E, M>): Option<Key>
  {
    match d
    case EventDelivery(_, e) => saga.correlate(e)
    case TimerDelivery(id, _) => Some(id)
  }

  /** The upcast of a stored instance. */
  function Upcast<S, E, M, C>(saga: Saga<S, E, M, C>, i: Instance<S>): Instance<S>
  {
    if saga.upcaster.Some? && i.schemaVersion < saga.version
    then i.(state := saga.upcaster.value(i.state, i.schemaVersion), schemaVersion := saga.version)
    else i
  }

  function React<S, E, M, C>(saga: Saga<S, E, M, C>, s: S, d: Delivery<E, M>): Reaction<S, C>
  {
    match d
    case EventDelivery(_, e) => saga.react(s, e)
    case TimerDelivery(_, m) => if saga.reactToTimer.Some? then saga.reactToTimer.value(s, m) else Reaction(s, [], false)
  }

  function Fresh<S, E, M, C>(saga: Saga<S, E, M, C>, e: E): Instance<S>
  {
    Instance(saga.initial(e), 0, Active, saga.version, None)
  }

  /** The instance after one reaction. */
  function Advanced<S, E, M, C>(i: Instance<S>, r: Reaction<S, C>, d: Delivery<E, M>): Instance<S>
  {
    Instance(r.newState, i.stateVersion + 1, if r.end then Completed else i.status, i.schemaVersion,
             if d.EventDelivery? then Some(d.pos) else i.lastEventPos)
  }

  /** Why the loaded instance does not take the delivery, if it does not. */
  function Refusal<S, E, M, C>(saga: Saga<S, E, M, C>, seen: Option<Instance<S>>, d: Delivery<E, M>): Option<SkipReason>
  {
    if seen.None? then
      if d.EventDelivery? && saga.starts(d.event) then None else Some(NoInstance)
    else if seen.value.status != Active then Some(InstanceTerminal)
    else if d.EventDelivery? && seen.value.lastEventPos.Some? && d.pos <= seen.value.lastEventPos.value then Some(AlreadyApplied)
    else None
  }

  /** The transition on a loaded instance, when no one else changes it. */
  function Transition<S, E, M, C>(saga: Saga<S, E, M, C>, seen: Option<Instance<S>>, d: Delivery<E, M>): Outcome<S, C>
  {
    var refusal := Refusal(saga, seen, d);
    if refusal.Some? then Skipped(refusal.value)
    else
      var i := if seen.None? then Fresh(saga, d.event) else Upcast(saga, seen.value);
      var r := React(saga, i.state, d);
      Applied(Advanced(i, r, d), r.commands)
  }

  /** A stored instance is upcast at most once: what an applied delivery leaves is
      of the current schema as far as there is an upcaster, and an instance that
      was not loaded before starts at version 1. */
  lemma UpcastOnce<S, E, M, C>(saga: Saga<S, E, M, C>, seen: Option<Instance<S>>, d: Delivery<E, M>)
    requires Transition(saga, seen, d).Applied?
    ensures var after := Transition(saga, seen, d).instance;
            Upcast(saga, after) == after &&
            (saga.upcaster.Some? || seen.None? ==> after.schemaVersion >= saga.version) &&
            after.stateVersion == (if seen.None? then 1 else seen.value.stateVersion + 1)
  {
  }

  /** An active instance takes an event past its last position: the reaction is the
      reducer's, on the upcast state if the stored one is older, and the result is
      stored under the next version with the event's position. */
  lemma EventApplied<S, E, M, C>(saga: Saga<S, E, M, C>, i: Instance<S>, pos: int, e: E)
    requires i.status == Active && (i.lastEventPos.None? || i.lastEventPos.value < pos)
    ensures var o := Transition(saga, Some(i), EventDelivery(pos, e));
            var old_ := saga.upcaster.Some? && i.schemaVersion < saga.version;
            var r := saga.react(if old_ then saga.upcaster.value(i.state, i.schemaVersion) else i.state, e);
            o == Applied(Instance(r.newState, i.stateVersion + 1, if r.end then Completed else Active,
                                  if old_ then saga.version else i.schemaVersion, Some(pos)), r.commands)
  {
  }

  /** A timer likewise; without a timer reducer the state stays and nothing is sent.
      The last event position is kept. */
  lemma TimerApplied<S, E, M, C>(saga: Saga<S, E, M, C>, i: Instance<S>, id: Key, timer: M)
    requires i.status == Active
    ensures var o := Transition(saga, Some(i), Delivery<E, M>.TimerDelivery(id, timer));
            var old_ := saga.upcaster.Some? && i.schemaVersion < saga.version;
            var state := if old_ then saga.upcaster.value(i.state, i.schemaVersion) else i.state;
            var r := if saga.reactToTimer.Some? then saga.reactToTimer.value(state, timer) else Reaction(state, [], false);
            o == Applied(Instance(r.newState, i.stateVersion + 1, if r.end then Completed else Active,
                                  if old_ then saga.version else i.schemaVersion, i.lastEventPos), r.commands)
  {
  }

  /** The first event of an instance: the reducer runs on the initial state of that
      event, at once, and the instance is of the current schema. */
  lemma FirstEventApplied<S, E, M, C>(saga: Saga<S, E, M, C>, pos: int, e: E)
    requires saga.starts(e)
    ensures var r := saga.react(saga.initial(e), e);
            Transition(saga, None, EventDelivery(pos, e)) ==
              Applied(Instance(r.newState, 1, if r.end then Completed else Active, saga.version, Some(pos)), r.commands)
  {
  }

  /** What is skipped, and why: nothing else is. */
  lemma SkippedExactly<S, E, M, C>(saga: Saga<S, E, M, C>, seen: Option<Instance<S>>, d: Delivery<E, M>)
    ensures var o := Transition(saga, seen, d);
            !o.Concurrent? &&
            (o == Skipped(NoInstance) <==> seen.None? && (d.TimerDelivery? || !saga.starts(d.event))) &&
            (o == Skipped(InstanceTerminal) <==> seen.Some? && seen.value.status != Active) &&
            (o == Skipped(AlreadyApplied) <==>
               seen.Some? && seen.value.status == Active && d.EventDelivery? &&
               seen.value.lastEventPos.Some? && d.pos <= seen.value.lastEventPos.value) &&
            (o.Skipped? ==> o.reason != NoCorrelation)
  {
  }

  // ---------------------------------------------------------------------------
  // The database
  // ---------------------------------------------------------------------------

  /** A pending command row. */
  datatype CommandRow<C> = CommandRow(instance: Key, command: C, causedBy: Option<int>)

  datatype Db<S, C> = Db(instances: map<Key, Instance<S>>, queue: seq<CommandRow<C>>)

  function Lookup<S, C>(db: Db<S, C>, id: Key): Option<Instance<S>>
  {
    if id in db.instances then Some(db.instances[id]) else None
  }

  function Rows<E, M, C>(id: Key, d: Delivery<E, M>, commands: seq<C>): (r: seq<CommandRow<C>>)
    ensures |r| == |commands|
  {
    seq(|commands|, i requires 0 <= i < |commands| =>
      CommandRow(id, commands[i], if d.EventDelivery? then Some(d.pos) else None))
  }

  /** One delivery applied with the database to itself. */
  function Serial<S, E, M, C>(saga: Saga<S, E, M, C>, db: Db<S, C>, d: Delivery<E, M>): Db<S, C>
  {
    var target := Target(saga, d);
    if target.None? then db
    else
      var o := Transition(saga, Lookup(db, target.value), d);
      if o.Applied? then
        Db(db.instances[target.value := o.instance], db.queue + Rows(target.value, d, o.commands))
      else db
  }

  /** What a delivery leaves behind: it touches only the instance that its event
      correlates to, or that its timer names, and adds that instance's commands in the
      order of the reaction, each caused by the event. */
  lemma DeliveryWrites<S, E, M, C>(saga: Saga<S, E, M, C>, db: Db<S, C>, d: Delivery<E, M>, id: Key)
    requires if d.EventDelivery? then saga.correlate(d.event) == Some(id) else d.instance == id
    ensures var after, o := Serial(saga, db, d), Transition(saga, if id in db.instances then Some(db.instances[id]) else None, d);
            if o.Applied? then
              after.instances == db.instances[id := o.instance] && |after.queue| == |db.queue| + |o.commands| &&
              after.queue[..|db.queue|] == db.queue &&
              forall n | 0 <= n < |o.commands| ::
                after.queue[|db.queue| + n] == CommandRow(id, o.commands[n], if d.EventDelivery? then Some(d.pos) else None)
            else after == db
  {
  }

  /** An event that correlates to no instance changes nothing. */
  lemma UncorrelatedSkipped<S, E, M, C>(saga: Saga<S, E, M, C>, db: Db<S, C>, pos: int, e: E)
    requires saga.correlate(e).None?
    ensures Serial(saga, db, EventDelivery(pos, e)) == db
  {
  }

  /** reactivate: an operator puts a failed instance back to active. */
  function Reactivated<S, C>(db: Db<S, C>, id: Key): Db<S, C>
  {
    if id in db.instances && db.instances[id].status == Failed then
      db.(instances := db.instances[id := db.instances[id].(status := Active, stateVersion := db.instances[id].stateVersion + 1)])
    else db
  }

  /** Only a failed instance is reactivated, and only its status and version change. */
  lemma ReactivatedExactly<S, C>(db: Db<S, C>, id: Key)
    ensures var after := Reactivated(db, id);
            after.queue == db.queue && after.instances.Keys == db.instances.Keys &&
            (forall k | k in db.instances && k != id :: after.instances[k] == db.instances[k]) &&
            (id in db.instances && db.instances[id].status != Failed ==> after == db) &&
            (id in db.instances && db.instances[id].status == Failed ==>
               var i, j := db.instances[id], after.instances[id];
               j.status == Active && j.stateVersion == i.stateVersion + 1 && j.state == i.state &&
               j.schemaVersion == i.schemaVersion && j.lastEventPos == i.lastEventPos)
  {
  }

  /** Instances stay, and change only under a higher version; rows are only added. */
  ghost predicate Grows<S, C>(a: Db<S, C>, b: Db<S, C>)
  {
    a.queue <= b.queue &&
    forall id | id in a.instances ::
      id in b.instances &&
      (b.instances[id] == a.instances[id] || b.instances[id].stateVersion > a.instances[id].stateVersion)
  }

  /** What an applied transition needs of the committed row: it is the one that was loaded. */
  predicate VersionMatches<S>(current: Option<Instance<S>>, seen: Option<Instance<S>>)
  {
    if seen.None? then current.None? else current.Some? && current.value.stateVersion == seen.value.stateVersion
  }

  // ---------------------------------------------------------------------------
  // The worker
  // ---------------------------------------------------------------------------

  class SagaWorker<S(0), C> {
    /** The committed database, shared with every other worker. */
    var db: Db<S, C>

    constructor ()
      ensures db == Db(map[], [])
    {
      db := Db(map[], []);
    }

    /** Commits of other workers become visible; no row is deleted meanwhile. Callers
        may rely on no more than the contract. */
    method Interference()
      modifies this
      ensures Grows(old(db), db)
    {
    }

    /** update: compare-and-set on the version of a transaction's working copy. */
    method Update(working: Db<S, C>, id: Key, updated: Instance<S>, expectedVersion: nat) returns (ok: bool, after: Db<S, C>)
      ensures ok <==> id in working.instances && working.instances[id].stateVersion == expectedVersion
      ensures after == if ok then working.(instances := working.instances[id := updated]) else working
    {
      ok, after := false, working;
      if id in working.instances && working.instances[id].stateVersion == expectedVersion {
        ok, after := true, working.(instances := working.instances[id := updated]);
      }
    }

    /** applySagaTransition inside the transaction of a projection: load, react,
        insert and enqueue, compare-and-set, then commit, or roll back when the
        instance was changed or started in between. Whatever the others commit
        meanwhile, the delivery has exactly its serial effect or none. */
    method Deliver<E, M>(saga: Saga<S, E, M, C>, d: Delivery<E, M>) returns (outcome: Outcome<S, C>, ghost others: Db<S, C>)
      modifies this
      ensures Grows(old(db), others)
      ensures outcome.Applied? ==> db == Serial(saga, others, d)
      ensures outcome.Applied? ==>
                Target(saga, d).Some? && outcome == Transition(saga, Lookup(others, Target(saga, d).value), d)
      ensures outcome.Skipped? ==> db == others == old(db) && Serial(saga, others, d) == others
      ensures outcome.Skipped? ==>
                outcome == if Target(saga, d).None? then Skipped(NoCorrelation) else Transition(saga, Lookup(others, Target(saga, d).value), d)
      ensures outcome.Concurrent? ==> db == others && Target(saga, d).Some?
      ensures outcome.Concurrent? ==> Lookup(others, Target(saga, d).value) != Lookup(old(db), Target(saga, d).value)
    {
      others := db;
      var target := Target(saga, d);
      if target.None? { return Skipped(NoCorrelation), db; }
      var id := target.value;
      var seen := Lookup(db, id);
      var refusal := Refusal(saga, seen, d);
      if refusal.Some? { return Skipped(refusal.value), db; }
      var instance := if seen.None? then Fresh(saga, d.event) else Upcast(saga, seen.value);
      var reaction := React(saga, instance.state, d);
      Interference();
      others := db;
      var working := db;
      if seen.None? {
        if id in working.instances { return Concurrent, others; }
        working := working.(instances := working.instances[id := instance]);
      }
      for n := 0 to |reaction.commands|
        invariant working.instances == if seen.None? then db.instances[id := instance] else db.instances
        invariant working.queue == db.queue + Rows(id, d, reaction.commands[..n])
        invariant db == others
      {
        working := working.(queue := working.queue + [CommandRow(id, reaction.commands[n], if d.EventDelivery? then Some(d.pos) else None)]);
        assert Rows(id, d, reaction.commands[..n + 1]) ==
               Rows(id, d, reaction.commands[..n]) + [CommandRow(id, reaction.commands[n], if d.EventDelivery? then Some(d.pos) else None)];
      }
      assert reaction.commands[..|reaction.commands|] == reaction.commands;
      var updated := Advanced(instance, reaction, d);
      var ok, after := Update(working, id, updated, instance.stateVersion);
      if !ok { return Concurrent, others; }
      assert after.instances == db.instances[id := updated];
      db := after;
      return Applied(updated, reaction.commands), others;
    }
  }

  // ---------------------------------------------------------------------------
  // Any interleaving of transactions, with operators and retention
  // ---------------------------------------------------------------------------

  type WorkerId = nat

  /** What a running transaction has written. */
  datatype Work<S, C> = Work(writes: map<Key, Instance<S>>, rows: seq<CommandRow<C>>)

  /** An instance loaded for a delivery, before the compare-and-set. */
  datatype Reading<S, E, M> = Reading(delivery: Delivery<E, M>, id: Key, seen: Option<Instance<S>>)

  /** A transaction of a worker: the deliveries it has been through, what they have
      written, and the delivery it is at. The rows it has written stay locked until
      it ends. */
  datatype Txn<S, E, M, C> = Txn(taken: seq<Delivery<E, M>>, work: Work<S, C>, reading: Option<Reading<S, E, M>>)

  datatype Sys<S, E, M, C> = Sys(db: Db<S, C>, workers: map<WorkerId, Txn<S, E, M, C>>)

  datatype Step<E, M> =
    | Load(w: WorkerId, delivery: Delivery<E, M>)
    | Cas(w: WorkerId)
    | Commit(w: WorkerId)
    | Abort(w: WorkerId)
    | Reactivate(id: Key)
    | Cleanup(id: Key)

  /** What a transaction sees of an instance: its own write, or the committed row. */
  function View<S, C>(db: Db<S, C>, work: Work<S, C>, id: Key): Option<Instance<S>>
  {
    if id in work.writes then Some(work.writes[id]) else Lookup(db, id)
  }

  /** The work after a delivery was applied to an instance. */
  function Worked<S, E, M, C>(saga: Saga<S, E, M, C>, work: Work<S, C>, seen: Option<Instance<S>>, d: Delivery<E, M>): Work<S, C>
  {
    var target := Target(saga, d);
    if target.None? then work
    else
      var o := Transition(saga, seen, d);
      if o.Applied? then Work(work.writes[target.value := o.instance], work.rows + Rows(target.value, d, o.commands)) else work
  }

  /** Commit makes the writes of a transaction the committed rows. */
  function Installed<S, C>(db: Db<S, C>, work: Work<S, C>): Db<S, C>
  {
    Db(db.instances + work.writes, db.queue + work.rows)
  }

  /** The transaction of a worker; one that has none starts one. */
  function TxnOf<S, E, M, C>(s: Sys<S, E, M, C>, w: WorkerId): Txn<S, E, M, C>
  {
    if w in s.workers then s.workers[w] else Txn([], Work(map[], []), None)
  }

  /** No transaction but that of w has the row of an instance locked. */
  predicate FreeFor<S, E, M, C>(s: Sys<S, E, M, C>, w: WorkerId, id: Key)
  {
    forall v | v in s.workers && v != w :: id !in s.workers[v].work.writes
  }

  predicate Free<S, E, M, C>(s: Sys<S, E, M, C>, id: Key)
  {
    forall v | v in s.workers :: id !in s.workers[v].work.writes
  }

  predicate Enabled<S, E, M, C>(s: Sys<S, E, M, C>, step: Step<E, M>)
  {
    match step
    case Load(w, _) => TxnOf(s, w).reading.None?
    case Cas(w) => w in s.workers && s.workers[w].reading.Some? && FreeFor(s, w, s.workers[w].reading.value.id)
    case Commit(w) => w in s.workers && s.workers[w].reading.None?
    case Abort(w) => w in s.workers
    case Reactivate(id) => Free(s, id)
    case Cleanup(id) => Free(s, id) && id in s.db.instances && s.db.instances[id].status != Active
  }

  /** One step. A lost compare-and-set fails the whole transaction, with all that
      its earlier deliveries wrote; Cleanup is the deletion of a terminal row. */
  function Next<S, E, M, C>(saga: Saga<S, E, M, C>, s: Sys<S, E, M, C>, step: Step<E, M>): Sys<S, E, M, C>
    requires Enabled(s, step)
  {
    match step
    case Load(w, d) => s.(workers := s.workers[w := Loaded(saga, s.db, TxnOf(s, w), d)])
    case Cas(w) =>
      var t := s.workers[w];
      var r := t.reading.value;
      if VersionMatches(View(s.db, t.work, r.id), r.seen) then
        s.(workers := s.workers[w := Txn(t.taken + [r.delivery], Worked(saga, t.work, r.seen, r.delivery), None)])
      else s.(workers := s.workers - {w})
    case Commit(w) => Sys(Installed(s.db, s.workers[w].work), s.workers - {w})
    case Abort(w) => s.(workers := s.workers - {w})
    case Reactivate(id) => s.(db := Reactivated(s.db, id))
    case Cleanup(id) => s.(db := Deleted(s.db, id))
  }

  /** A transaction that is aborted leaves nothing behind, and the rows it had locked
      are free for others. */
  lemma AbortUndoes<S, E, M, C>(saga: Saga<S, E, M, C>, s: Sys<S, E, M, C>, w: WorkerId, id: Key)
    requires Enabled(s, Abort(w))
    ensures var t := Next(saga, s, Abort(w));
            t.db == s.db && t.workers.Keys == s.workers.Keys - {w} && (forall v | v in t.workers :: t.workers[v] == s.workers[v]) &&
            (Free(t, id) <==> FreeFor(s, w, id))
  {
  }

  function Deleted<S, C>(db: Db<S, C>, id: Key): Db<S, C> { db.(instances := db.instances - {id}) }

  /** A delivery is skipped on what the transaction sees, or the instance is loaded for it. */
  function Loaded<S, E, M, C>(saga: Saga<S, E, M, C>, db: Db<S, C>, t: Txn<S, E, M, C>, d: Delivery<E, M>): Txn<S, E, M, C>
  {
    var target := Target(saga, d);
    if target.None? then t
    else
      var seen := View(db, t.work, target.value);
      if Refusal(saga, seen, d).None? then t.(reading := Some(Reading(d, target.value, seen)))
      else if target.value in t.work.writes then t.(taken := t.taken + [d])
      else t
  }

  /** An entry of the serial history. */
  datatype Entry<E, M> = Delivered(delivery: Delivery<E, M>) | Revived(id: Key) | Removed(id: Key)

  function Entries<E, M>(ds: seq<Delivery<E, M>>): (r: seq<Entry<E, M>>)
    ensures |r| == |ds|
  {
    seq(|ds|, i requires 0 <= i < |ds| => Delivered(ds[i]))
  }

  /** What a step adds to the serial history: a commit its deliveries, a delivery
      that is skipped on a committed row itself, an operator the action. */
  function Logged<S, E, M, C>(saga: Saga<S, E, M, C>, s: Sys<S, E, M, C>, step: Step<E, M>): seq<Entry<E, M>>
    requires Enabled(s, step)
  {
    match step
    case Load(w, d) =>
      var t := TxnOf(s, w);
      var target := Target(saga, d);
      if target.None? || (target.value !in t.work.writes && Refusal(saga, Lookup(s.db, target.value), d).Some?) then [Delivered(d)] else []
    case Commit(w) => Entries(s.workers[w].taken)
    case Reactivate(id) => [Revived(id)]
    case Cleanup(id) => [Removed(id)]
    case _ => []
  }

  function Replayed<S, E, M, C>(saga: Saga<S, E, M, C>, db: Db<S, C>, e: Entry<E, M>): Db<S, C>
  {
    match e
    case Delivered(d) => Serial(saga, db, d)
    case Revived(id) => Reactivated(db, id)
    case Removed(id) => Deleted(db, id)
  }

  function SerialRun<S, E, M, C>(saga: Saga<S, E, M, C>, db: Db<S, C>, history: seq<Entry<E, M>>): Db<S, C>
  {
    if history == [] then db
    else Replayed(saga, SerialRun(saga, db, history[..|history| - 1]), history[|history| - 1])
  }

  // ---------------------------------------------------------------------------
  // Which deletions are safe
  // ---------------------------------------------------------------------------

  /** One instance along one entry. */
  function Lived<S, E, M, C>(saga: Saga<S, E, M, C>, id: Key, i: Option<Instance<S>>, e: Entry<E, M>): Option<Instance<S>>
  {
    match e
    case Delivered(d) =>
      var o := Transition(saga, i, d);
      if Target(saga, d) == Some(id) && o.Applied? then Some(o.instance) else i
    case Revived(x) =>
      if x == id && i.Some? && i.value.status == Failed
      then Some(i.value.(status := Active, stateVersion := i.value.stateVersion + 1)) else i
    case Removed(x) => if x == id then None else i
  }

  /** One instance along a history. */
  function Life<S, E, M, C>(saga: Saga<S, E, M, C>, id: Key, i: Option<Instance<S>>, history: seq<Entry<E, M>>): Option<Instance<S>>
  {
    if history == [] then i
    else Lived(saga, id, Life(saga, id, i, history[..|history| - 1]), history[|history| - 1])
  }

  /** A loaded instance that no new instance of the same id can be mistaken for:
      at the same version the delivery would do the same to it. */
  ghost predicate Harmless<S(!new), E(!new), M(!new), C(!new)>(saga: Saga<S, E, M, C>, r: Reading<S, E, M>)
  {
    forall history: seq<Entry<E, M>> {:trigger Life(saga, r.id, None, history)} ::
      var that := Life(saga, r.id, None, history);
      VersionMatches(that, r.seen) ==> Transition(saga, that, r.delivery) == Transition(saga, r.seen, r.delivery)
  }

  /** A transaction has loaded the stored row of an instance and not yet passed the
      compare-and-set. */
  predicate Reads<S, E, M, C>(t: Txn<S, E, M, C>, id: Key)
  {
    t.reading.Some? && t.reading.value.id == id && t.reading.value.seen.Some?
  }

  /** Whoever has loaded the row of an instance holds a harmless one. */
  ghost predicate Spared<S(!new), E(!new), M(!new), C(!new)>(saga: Saga<S, E, M, C>, s: Sys<S, E, M, C>, id: Key)
  {
    forall w | w in s.workers && Reads(s.workers[w], id) :: Harmless(saga, s.workers[w].reading.value)
  }

  datatype Trace<S, E, M, C> = Trace(sys: Sys<S, E, M, C>, history: seq<Entry<E, M>>)

  /** A run from a state: steps that are enabled, with deletions of spared rows only. */
  ghost function Ran<S(!new), E(!new), M(!new), C(!new)>(saga: Saga<S, E, M, C>, s: Sys<S, E, M, C>, steps: seq<Step<E, M>>): Option<Trace<S, E, M, C>>
  {
    if steps == [] then Some(Trace(s, []))
    else
      var before := Ran(saga, s, steps[..|steps| - 1]);
      if before.None? then None else Stepped(saga, before.value, steps[|steps| - 1])
  }

  ghost function Stepped<S(!new), E(!new), M(!new), C(!new)>(saga: Saga<S, E, M, C>, t: Trace<S, E, M, C>, step: Step<E, M>): Option<Trace<S, E, M, C>>
  {
    if Enabled(t.sys, step) && (step.Cleanup? ==> Spared(saga, t.sys, step.id))
    then Some(Trace(Next(saga, t.sys, step), t.history + Logged(saga, t.sys, step)))
    else None
  }

  // ---------------------------------------------------------------------------
  // The writes of a transaction
  // ---------------------------------------------------------------------------

  /** The writes of deliveries applied one after the other on committed rows. */
  function Overlay<S, E, M, C>(saga: Saga<S, E, M, C>, db: Db<S, C>, ds: seq<Delivery<E, M>>): Work<S, C>
  {
    if ds == [] then Work(map[], [])
    else
      var d := ds[|ds| - 1];
      var before := Overlay(saga, db, ds[..|ds| - 1]);
      var target := Target(saga, d);
      if target.None? then before else Worked(saga, before, View(db, before, target.value), d)
  }

  lemma {:induction false} OverlayIsSerial<S, E, M, C>(saga: Saga<S, E, M, C>, db: Db<S, C>, ds: seq<Delivery<E, M>>)
    ensures Installed(db, Overlay(saga, db, ds)) == SerialRun(saga, db, Entries(ds))
  {
    if ds != [] {
      var n := |ds| - 1;
      OverlayIsSerial(saga, db, ds[..n]);
      assert Entries(ds)[..n] == Entries(ds[..n]);
      var before := Overlay(saga, db, ds[..n]);
      var target := Target(saga, ds[n]);
      if target.Some? {
        hide Transition;
        assert View(db, before, target.value) == Lookup(Installed(db, before), target.value);
        var o := Transition(saga, View(db, before, target.value), ds[n]);
        if o.Applied? {
          assert db.instances + before.writes[target.value := o.instance] == (db.instances + before.writes)[target.value := o.instance];
          assert db.queue + (before.rows + Rows(target.value, ds[n], o.commands)) == db.queue + before.rows + Rows(target.value, ds[n], o.commands);
        }
      }
    }
  }

  /** The rows that deliveries are for. */
  ghost predicate SameRows<S, E, M, C>(saga: Saga<S, E, M, C>, a: Db<S, C>, b: Db<S, C>, ds: seq<Delivery<E, M>>)
  {
    forall d | d in ds && Target(saga, d).Some? :: Lookup(a, Target(saga, d).value) == Lookup(b, Target(saga, d).value)
  }

  lemma {:induction false} OverlaySame<S, E, M, C>(saga: Saga<S, E, M, C>, a: Db<S, C>, b: Db<S, C>, ds: seq<Delivery<E, M>>)
    requires SameRows(saga, a, b, ds)
    ensures Overlay(saga, a, ds) == Overlay(saga, b, ds)
  {
    hide Worked, Lookup;
    if ds != [] {
      var d := ds[|ds| - 1];
      assert d in ds;
      assert SameRows(saga, a, b, ds[..|ds| - 1]);
      OverlaySame(saga, a, b, ds[..|ds| - 1]);
    }
  }

  lemma {:induction false} OverlayGrows<S, E, M, C>(saga: Saga<S, E, M, C>, db: Db<S, C>, ds: seq<Delivery<E, M>>, id: Key)
    requires id in Overlay(saga, db, ds).writes && id in db.instances
    ensures Overlay(saga, db, ds).writes[id].stateVersion > db.instances[id].stateVersion
  {
    if ds != [] {
      var before := Overlay(saga, db, ds[..|ds| - 1]);
      if id in before.writes { OverlayGrows(saga, db, ds[..|ds| - 1], id); }
    }
  }

  // ---------------------------------------------------------------------------
  // One instance
  // ---------------------------------------------------------------------------

  lemma {:induction false} LifeIsLookup<S, E, M, C>(saga: Saga<S, E, M, C>, id: Key, db: Db<S, C>, history: seq<Entry<E, M>>)
    ensures Lookup(SerialRun(saga, db, history), id) == Life(saga, id, Lookup(db, id), history)
  {
    hide Transition;
    if history != [] { LifeIsLookup(saga, id, db, history[..|history| - 1]); }
  }

  lemma {:induction false} LifeConcat<S, E, M, C>(saga: Saga<S, E, M, C>, id: Key, i: Option<Instance<S>>, a: seq<Entry<E, M>>, b: seq<Entry<E, M>>)
    ensures Life(saga, id, i, a + b) == Life(saga, id, Life(saga, id, i, a), b)
  {
    hide Lived;
    if b == [] {
      assert a + b == a;
    } else {
      var n := |b| - 1;
      assert (a + b)[..|a| + n] == a + b[..n];
      LifeConcat(saga, id, i, a, b[..n]);
    }
  }

  /** The row of an instance is what a history leaves of a new one. */
  ghost predicate Born<S(!new), E(!new), M(!new), C(!new)>(saga: Saga<S, E, M, C>, db: Db<S, C>, id: Key)
  {
    exists history: seq<Entry<E, M>> :: Life(saga, id, None, history) == Lookup(db, id)
  }

  lemma BornKept<S(!new), E(!new), M(!new), C(!new)>(saga: Saga<S, E, M, C>, db: Db<S, C>, log: seq<Entry<E, M>>, id: Key)
    requires Born(saga, db, id)
    ensures Born(saga, SerialRun(saga, db, log), id)
  {
    var history: seq<Entry<E, M>> :| Life(saga, id, None, history) == Lookup(db, id);
    LifeConcat(saga, id, None, history, log);
    LifeIsLookup(saga, id, db, log);
    assert Life(saga, id, None, history + log) == Lookup(SerialRun(saga, db, log), id);
  }

  lemma BornAbsent<S(!new), E(!new), M(!new), C(!new)>(saga: Saga<S, E, M, C>, db: Db<S, C>, id: Key)
    requires Lookup(db, id).None?
    ensures Born(saga, db, id)
  {
    assert Life(saga, id, None, []) == Lookup(db, id);
  }

  // ---------------------------------------------------------------------------
  // The invariant
  // ---------------------------------------------------------------------------

  /** A row stays, and changes only under a higher version. */
  ghost predicate KeptAt<S, C>(a: Db<S, C>, b: Db<S, C>, id: Key)
  {
    id in a.instances ==>
      id in b.instances && (b.instances[id] == a.instances[id] || b.instances[id].stateVersion > a.instances[id].stateVersion)
  }

  /** A loaded instance is the transaction's own write, or it is still current
      unless its row moved to a higher version or was replaced harmlessly. */
  ghost predicate ReadingInv<S(!new), E(!new), M(!new), C(!new)>(saga: Saga<S, E, M, C>, db: Db<S, C>, work: Work<S, C>, r: Reading<S, E, M>)
  {
    Target(saga, r.delivery) == Some(r.id) && Refusal(saga, r.seen, r.delivery).None? &&
    if r.id in work.writes then r.seen == Some(work.writes[r.id])
    else r.seen.None? || Current(db, r.id, r.seen.value) || (Harmless(saga, r) && Born(saga, db, r.id))
  }

  ghost predicate Current<S, C>(db: Db<S, C>, id: Key, seen: Instance<S>)
  {
    id in db.instances && (db.instances[id] == seen || db.instances[id].stateVersion > seen.stateVersion)
  }

  /** What a transaction has written are the writes of its deliveries on the
      committed rows, which its locks keep as they are. */
  ghost predicate TxnInv<S(!new), E(!new), M(!new), C(!new)>(saga: Saga<S, E, M, C>, db: Db<S, C>, t: Txn<S, E, M, C>)
  {
    Overlay(saga, db, t.taken) == t.work && Locked(saga, t) &&
    (t.reading.Some? ==> ReadingInv(saga, db, t.work, t.reading.value))
  }

  ghost predicate Locked<S, E, M, C>(saga: Saga<S, E, M, C>, t: Txn<S, E, M, C>)
  {
    forall d | d in t.taken :: Target(saga, d).Some? && Target(saga, d).value in t.work.writes
  }

  ghost predicate Inv<S(!new), E(!new), M(!new), C(!new)>(saga: Saga<S, E, M, C>, s: Sys<S, E, M, C>)
  {
    (forall w | w in s.workers :: TxnInv(saga, s.db, s.workers[w])) &&
    forall v, w | v in s.workers && w in s.workers && v != w :: s.workers[v].work.writes.Keys !! s.workers[w].work.writes.Keys
  }

  /** What others do to rows that a transaction has not locked keeps its invariant. */
  lemma OtherKept<S(!new), E(!new), M(!new), C(!new)>(saga: Saga<S, E, M, C>, db: Db<S, C>, log: seq<Entry<E, M>>, t: Txn<S, E, M, C>)
    requires TxnInv(saga, db, t)
    requires forall id | id in t.work.writes :: Lookup(SerialRun(saga, db, log), id) == Lookup(db, id)
    requires t.reading.Some? && t.reading.value.seen.Some? ==>
               KeptAt(db, SerialRun(saga, db, log), t.reading.value.id) ||
               (Harmless(saga, t.reading.value) && Lookup(SerialRun(saga, db, log), t.reading.value.id).None?)
    ensures TxnInv(saga, SerialRun(saga, db, log), t)
  {
    hide Harmless, Target, Refusal, SerialRun;
    var after := SerialRun(saga, db, log);
    assert SameRows(saga, db, after, t.taken);
    OverlaySame(saga, db, after, t.taken);
    if t.reading.Some? {
      var r := t.reading.value;
      if r.id !in t.work.writes && r.seen.Some? {
        if !KeptAt(db, after, r.id) {
          BornAbsent(saga, after, r.id);
        } else if !Current(db, r.id, r.seen.value) {
          BornKept(saga, db, log, r.id);
        }
      }
    }
  }

  lemma {:induction false} StepSerial<S(!new), E(!new), M(!new), C(!new)>(saga: Saga<S, E, M, C>, s: Sys<S, E, M, C>, step: Step<E, M>)
    requires Inv(saga, s) && Enabled(s, step) && (step.Cleanup? ==> Spared(saga, s, step.id))
    ensures Inv(saga, Next(saga, s, step))
    ensures Next(saga, s, step).db == SerialRun(saga, s.db, Logged(saga, s, step))
  {
    hide Spared, TxnInv, SerialRun;
    match step
    case Load(w, d) => LoadSerial(saga, s, w, d);
    case Cas(w) => CasSerial(saga, s, w); SerialRunNone(saga, s.db);
    case Commit(w) => CommitSerial(saga, s, w);
    case Abort(w) => SerialRunNone(saga, s.db);
    case Reactivate(id) => OperatorSerial(saga, s, step, Revived(id), id);
    case Cleanup(id) => OperatorSerial(saga, s, step, Removed(id), id);
  }

  lemma SerialRunNone<S, E, M, C>(saga: Saga<S, E, M, C>, db: Db<S, C>)
    ensures SerialRun(saga, db, []) == db
  {
  }

  lemma SerialRunOne<S, E, M, C>(saga: Saga<S, E, M, C>, db: Db<S, C>, e: Entry<E, M>)
    ensures SerialRun(saga, db, [e]) == Replayed(saga, db, e)
  {
    assert [e][..0] == [];
  }

  lemma LoadedInv<S(!new), E(!new), M(!new), C(!new)>(saga: Saga<S, E, M, C>, db: Db<S, C>, t: Txn<S, E, M, C>, d: Delivery<E, M>)
    requires TxnInv(saga, db, t) && t.reading.None?
    ensures TxnInv(saga, db, Loaded(saga, db, t, d)) && Loaded(saga, db, t, d).work == t.work
  {
    hide Harmless, Born, React;
    if Loaded(saga, db, t, d).taken != t.taken {
      assert (t.taken + [d])[..|t.taken|] == t.taken;
    }
  }

  lemma LoadSerial<S(!new), E(!new), M(!new), C(!new)>(saga: Saga<S, E, M, C>, s: Sys<S, E, M, C>, w: WorkerId, d: Delivery<E, M>)
    requires Inv(saga, s) && Enabled(s, Step<E, M>.Load(w, d))
    ensures Inv(saga, Next(saga, s, Load(w, d)))
    ensures s.db == SerialRun(saga, s.db, Logged(saga, s, Load(w, d)))
  {
    LoadInv(saga, s, w, d);
    SerialRunNone(saga, s.db);
    SerialRunOne(saga, s.db, Delivered(d));
    hide SerialRun, Inv, Loaded, React;
  }

  lemma LoadInv<S(!new), E(!new), M(!new), C(!new)>(saga: Saga<S, E, M, C>, s: Sys<S, E, M, C>, w: WorkerId, d: Delivery<E, M>)
    requires Inv(saga, s) && Enabled(s, Step<E, M>.Load(w, d))
    ensures Inv(saga, Next(saga, s, Load(w, d)))
  {
    TxnOfInv(saga, s, w);
    LoadedInv(saga, s.db, TxnOf(s, w), d);
    hide Inv, TxnInv, Loaded;
    WorkerChanged(saga, s, w, Loaded(saga, s.db, TxnOf(s, w), d));
  }

  lemma TxnOfInv<S(!new), E(!new), M(!new), C(!new)>(saga: Saga<S, E, M, C>, s: Sys<S, E, M, C>, w: WorkerId)
    requires Inv(saga, s)
    ensures TxnInv(saga, s.db, TxnOf(s, w)) && FreshWrites(s, w, TxnOf(s, w))
  {
    hide ReadingInv;
  }

  /** No other transaction has written a row that t has. */
  ghost predicate FreshWrites<S, E, M, C>(s: Sys<S, E, M, C>, w: WorkerId, t: Txn<S, E, M, C>)
  {
    forall v | v in s.workers && v != w :: s.workers[v].work.writes.Keys !! t.work.writes.Keys
  }

  lemma WorkerChanged<S(!new), E(!new), M(!new), C(!new)>(saga: Saga<S, E, M, C>, s: Sys<S, E, M, C>, w: WorkerId, t: Txn<S, E, M, C>)
    requires Inv(saga, s) && TxnInv(saga, s.db, t) && FreshWrites(s, w, t)
    ensures Inv(saga, s.(workers := s.workers[w := t]))
  {
    hide TxnInv;
  }

  /** What passes the compare-and-set does to the row what it would do to the
      instance that was loaded. */
  lemma CasReads<S(!new), E(!new), M(!new), C(!new)>(saga: Saga<S, E, M, C>, db: Db<S, C>, work: Work<S, C>, r: Reading<S, E, M>)
    requires ReadingInv(saga, db, work, r) && VersionMatches(View(db, work, r.id), r.seen)
    ensures Transition(saga, View(db, work, r.id), r.delivery) == Transition(saga, r.seen, r.delivery)
  {
    hide Transition, Refusal, Target;
    if r.id !in work.writes && r.seen.Some? && !Current(db, r.id, r.seen.value) {
      var history: seq<Entry<E, M>> :| Life(saga, r.id, None, history) == Lookup(db, r.id);
      assert VersionMatches(Life(saga, r.id, None, history), r.seen);
    }
  }

  lemma CasInv<S(!new), E(!new), M(!new), C(!new)>(saga: Saga<S, E, M, C>, db: Db<S, C>, t: Txn<S, E, M, C>)
    requires TxnInv(saga, db, t) && t.reading.Some? && VersionMatches(View(db, t.work, t.reading.value.id), t.reading.value.seen)
    ensures var r := t.reading.value;
            TxnInv(saga, db, Txn(t.taken + [r.delivery], Worked(saga, t.work, r.seen, r.delivery), None)) &&
            Worked(saga, t.work, r.seen, r.delivery).writes.Keys == t.work.writes.Keys + {r.id}
  {
    var r := t.reading.value;
    CasReads(saga, db, t.work, r);
    hide Harmless, Born, React;
    assert (t.taken + [r.delivery])[..|t.taken|] == t.taken;
  }

  lemma CasSerial<S(!new), E(!new), M(!new), C(!new)>(saga: Saga<S, E, M, C>, s: Sys<S, E, M, C>, w: WorkerId)
    requires Inv(saga, s) && Enabled(s, Step<E, M>.Cas(w))
    ensures Inv(saga, Next(saga, s, Step<E, M>.Cas(w)))
  {
    TxnOfInv(saga, s, w);
    hide TxnInv, Worked, View;
    var t := Next(saga, s, Step<E, M>.Cas(w));
    if w in t.workers {
      CasInv(saga, s.db, s.workers[w]);
      WorkerChanged(saga, s, w, t.workers[w]);
    }
  }

  lemma CommitSerial<S(!new), E(!new), M(!new), C(!new)>(saga: Saga<S, E, M, C>, s: Sys<S, E, M, C>, w: WorkerId)
    requires Inv(saga, s) && Enabled(s, Step<E, M>.Commit(w))
    ensures var t := Next(saga, s, Step<E, M>.Commit(w));
            Inv(saga, t) && t.db == SerialRun(saga, s.db, Entries(s.workers[w].taken))
  {
    hide Locked, ReadingInv, SerialRun, Worked;
    var t := Next(saga, s, Step<E, M>.Commit(w));
    var taken, work := s.workers[w].taken, s.workers[w].work;
    assert TxnInv(saga, s.db, s.workers[w]);
    OverlayIsSerial(saga, s.db, taken);
    forall id ensures KeptAt(s.db, t.db, id) {
      if id in work.writes && id in s.db.instances { OverlayGrows(saga, s.db, taken, id); }
    }
    hide TxnInv, Overlay;
    forall v | v in t.workers ensures TxnInv(saga, t.db, t.workers[v]) {
      OtherKept(saga, s.db, Entries(taken), s.workers[v]);
    }
  }

  lemma OperatorSerial<S(!new), E(!new), M(!new), C(!new)>(saga: Saga<S, E, M, C>, s: Sys<S, E, M, C>, step: Step<E, M>, e: Entry<E, M>, id: Key)
    requires Inv(saga, s) && Enabled(s, step)
    requires (step == Reactivate(id) && e == Revived(id)) || (step == Cleanup(id) && e == Removed(id) && Spared(saga, s, id))
    ensures Inv(saga, Next(saga, s, step))
    ensures Next(saga, s, step).db == SerialRun(saga, s.db, [e])
  {
    hide SerialRun, TxnInv, Harmless;
    SerialRunOne(saga, s.db, e);
    var t := Next(saga, s, step);
    forall v | v in t.workers ensures TxnInv(saga, t.db, t.workers[v]) {
      OtherKept(saga, s.db, [e], s.workers[v]);
    }
  }

  lemma {:induction false} SerialRunConcat<S, E, M, C>(saga: Saga<S, E, M, C>, db: Db<S, C>, a: seq<Entry<E, M>>, b: seq<Entry<E, M>>)
    ensures SerialRun(saga, db, a + b) == SerialRun(saga, SerialRun(saga, db, a), b)
  {
    hide Replayed;
    if b == [] {
      assert a + b == a;
    } else {
      var n := |b| - 1;
      assert (a + b)[..|a| + n] == a + b[..n];
      SerialRunConcat(saga, db, a, b[..n]);
    }
  }

  lemma {:induction false} RunSerial<S(!new), E(!new), M(!new), C(!new)>(saga: Saga<S, E, M, C>, s: Sys<S, E, M, C>, steps: seq<Step<E, M>>)
    requires Inv(saga, s) && Ran(saga, s, steps).Some?
    ensures Inv(saga, Ran(saga, s, steps).value.sys)
    ensures Ran(saga, s, steps).value.sys.db == SerialRun(saga, s.db, Ran(saga, s, steps).value.history)
  {
    hide Inv, Spared, Enabled, Next, Logged, SerialRun;
    if steps == [] {
      SerialRunNone(saga, s.db);
    } else {
      var n := |steps| - 1;
      RunSerial(saga, s, steps[..n]);
      var before := Ran(saga, s, steps[..n]).value;
      StepSerial(saga, before.sys, steps[n]);
      SerialRunConcat(saga, s.db, before.history, Logged(saga, before.sys, steps[n]));
    }
  }

  /** Serializability: after any interleaving of any number of transactions, each
      with any number of deliveries, with crashes, reactivations and deletions of
      spared rows, the committed instances and the command queue are those of
      applying the logged deliveries one after the other, in commit order. A
      transaction that lost a race contributes nothing. */
  lemma Serializable<S(!new), E(!new), M(!new), C(!new)>(saga: Saga<S, E, M, C>, db: Db<S, C>, steps: seq<Step<E, M>>)
    requires Ran(saga, Sys(db, map[]), steps).Some?
    ensures var t := Ran(saga, Sys(db, map[]), steps).value;
            Inv(saga, t.sys) && t.sys.db == SerialRun(saga, db, t.history)
  {
    RunSerial(saga, Sys(db, map[]), steps);
  }

  lemma {:induction false} HistoryKeeps<S, E, M, C>(saga: Saga<S, E, M, C>, db: Db<S, C>, history: seq<Entry<E, M>>, id: Key)
    requires Removed(id) !in history
    ensures KeptAt(db, SerialRun(saga, db, history), id)
  {
    hide React;
    if history != [] {
      var n := |history| - 1;
      HistoryKeeps(saga, db, history[..n], id);
      assert history[n] in history;
    }
  }

  lemma {:induction false} RemovalsLogged<S(!new), E(!new), M(!new), C(!new)>(saga: Saga<S, E, M, C>, s: Sys<S, E, M, C>, steps: seq<Step<E, M>>, id: Key)
    requires Ran(saga, s, steps).Some? && Cleanup(id) !in steps
    ensures Removed(id) !in Ran(saga, s, steps).value.history
  {
    hide Inv, Spared, Next;
    if steps != [] {
      var n := |steps| - 1;
      RemovalsLogged(saga, s, steps[..n], id);
      assert steps[n] in steps;
    }
  }

  /** Versions identify states: as long as a row is not deleted, whenever it is seen
      again at the same version it is the same instance. */
  lemma VersionDeterminesInstance<S(!new), E(!new), M(!new), C(!new)>(saga: Saga<S, E, M, C>, s: Sys<S, E, M, C>, steps: seq<Step<E, M>>, id: Key)
    requires Inv(saga, s) && Ran(saga, s, steps).Some? && Cleanup(id) !in steps
    requires id in s.db.instances
    ensures var after := Ran(saga, s, steps).value.sys.db;
            id in after.instances &&
            (after.instances[id] == s.db.instances[id] || after.instances[id].stateVersion > s.db.instances[id].stateVersion)
  {
    hide Inv, Ran, SerialRun;
    RunSerial(saga, s, steps);
    RemovalsLogged(saga, s, steps, id);
    HistoryKeeps(saga, s.db, Ran(saga, s, steps).value.history, id);
  }

  // ---------------------------------------------------------------------------
  // Exactly the rows that are spared may be deleted
  // ---------------------------------------------------------------------------

  /** Every run from a state has the effect of its serial history. */
  ghost predicate SerialFrom<S(!new), E(!new), M(!new), C(!new)>(saga: Saga<S, E, M, C>, s: Sys<S, E, M, C>)
  {
    forall steps | Ran(saga, s, steps).Some? ::
      Ran(saga, s, steps).value.sys.db == SerialRun(saga, s.db, Ran(saga, s, steps).value.history)
  }

  lemma RanStep<S(!new), E(!new), M(!new), C(!new)>(saga: Saga<S, E, M, C>, s: Sys<S, E, M, C>, steps: seq<Step<E, M>>, step: Step<E, M>)
    requires Ran(saga, s, steps).Some?
    ensures Ran(saga, s, steps + [step]) == Stepped(saga, Ran(saga, s, steps).value, step)
  {
    hide Stepped;
    assert (steps + [step])[..|steps|] == steps;
  }

  lemma {:induction false} Unused(ws: set<WorkerId>) returns (v: WorkerId)
    ensures forall w | w in ws :: w < v
  {
    v := 0;
    if ws != {} {
      var w :| w in ws;
      var u := Unused(ws - {w});
      v := if u > w then u else w + 1;
      forall x | x in ws ensures x < v { assert x == w || x in ws - {w}; }
    }
  }

  /** A history of one instance without the deletions in it. */
  lemma {:induction false} Shorten<S, E, M, C>(saga: Saga<S, E, M, C>, id: Key, history: seq<Entry<E, M>>) returns (short: seq<Entry<E, M>>)
    ensures Life(saga, id, None, short) == Life(saga, id, None, history)
    ensures forall x :: Removed(x) !in short
  {
    hide Transition, Target;
    short := [];
    if history != [] {
      var n := |history| - 1;
      if history[n].Removed? {
        if history[n].id != id { short := Shorten(saga, id, history[..n]); }
      } else {
        var before := Shorten(saga, id, history[..n]);
        short := before + [history[n]];
        assert short[..|before|] == before;
      }
    }
  }

  /** A worker brings a free instance along one entry, or the entry does nothing to it. */
  lemma Retrace<S(!new), E(!new), M(!new), C(!new)>(saga: Saga<S, E, M, C>, s: Sys<S, E, M, C>, done: seq<Step<E, M>>, id: Key, v: WorkerId, e: Entry<E, M>) returns (steps: seq<Step<E, M>>)
    requires Ran(saga, s, done).Some? && !e.Removed?
    requires v !in Ran(saga, s, done).value.sys.workers && Free(Ran(saga, s, done).value.sys, id)
    ensures Ran(saga, s, steps).Some?
    ensures var a, b := Ran(saga, s, done).value, Ran(saga, s, steps).value;
            b.sys.workers == a.sys.workers &&
            Lookup(b.sys.db, id) == Life(saga, id, Lookup(a.sys.db, id), [e]) &&
            (forall k | k != id :: Lookup(b.sys.db, k) == Lookup(a.sys.db, k)) &&
            forall x | x in b.history :: x in a.history || x == e
  {
    var a := Ran(saga, s, done).value;
    var i := Lookup(a.sys.db, id);
    steps := done;
    LifeOne(saga, id, i, e);
    match e
    case Delivered(d) =>
      if Target(saga, d) == Some(id) && Refusal(saga, i, d).None? {
        steps := done + [Load(v, d)] + [Cas(v)] + [Commit(v)];
        Retraced(saga, s, done, id, v, d);
      }
    case Revived(x) =>
      if x == id {
        steps := done + [Reactivate(id)];
        RanStep(saga, s, done, Reactivate(id));
      }
  }

  lemma LifeOne<S, E, M, C>(saga: Saga<S, E, M, C>, id: Key, i: Option<Instance<S>>, e: Entry<E, M>)
    ensures Life(saga, id, i, [e]) == Lived(saga, id, i, e)
  {
    hide Lived;
    assert [e][..0] == [];
  }

  lemma Retraced<S(!new), E(!new), M(!new), C(!new)>(saga: Saga<S, E, M, C>, s: Sys<S, E, M, C>, done: seq<Step<E, M>>, id: Key, v: WorkerId, d: Delivery<E, M>)
    requires Ran(saga, s, done).Some?
    requires v !in Ran(saga, s, done).value.sys.workers && Free(Ran(saga, s, done).value.sys, id)
    requires Target(saga, d) == Some(id) && Refusal(saga, Lookup(Ran(saga, s, done).value.sys.db, id), d).None?
    ensures var a := Ran(saga, s, done).value;
            var b := Ran(saga, s, done + [Load(v, d)] + [Cas(v)] + [Commit(v)]);
            b.Some? && b.value.sys == a.sys.(db := Installed(a.sys.db, Worked(saga, Work(map[], []), Lookup(a.sys.db, id), d))) &&
            b.value.history == a.history + Entries([d])
  {
    hide Ran, Worked, Installed, Refusal, Spared;
    var a := Ran(saga, s, done).value.sys;
    var r := Reading(d, id, Lookup(a.db, id));
    RanStep(saga, s, done, Load(v, d));
    var b := Ran(saga, s, done + [Load(v, d)]).value.sys;
    assert b == a.(workers := a.workers[v := Txn([], Work(map[], []), Some(r))]);
    RanStep(saga, s, done + [Load(v, d)], Cas(v));
    var c := Ran(saga, s, done + [Load(v, d)] + [Cas(v)]).value.sys;
    assert View(b.db, b.workers[v].work, id) == r.seen && [] + [d] == [d];
    assert c.workers == a.workers[v := Txn([d], Worked(saga, Work(map[], []), r.seen, d), None)];
    RanStep(saga, s, done + [Load(v, d)] + [Cas(v)], Commit(v));
    assert a.workers[v := c.workers[v]] - {v} == a.workers;
    assert Ran(saga, s, done + [Load(v, d)] + [Cas(v)]).value.history == Ran(saga, s, done).value.history + [] + [];
  }

  lemma {:induction false} Restart<S(!new), E(!new), M(!new), C(!new)>(saga: Saga<S, E, M, C>, s: Sys<S, E, M, C>, id: Key, v: WorkerId, history: seq<Entry<E, M>>) returns (steps: seq<Step<E, M>>)
    requires v !in s.workers && Free(s, id) && forall x :: Removed(x) !in history
    ensures Ran(saga, s, steps).Some?
    ensures var b := Ran(saga, s, steps).value;
            b.sys.workers == s.workers &&
            Lookup(b.sys.db, id) == Life(saga, id, Lookup(s.db, id), history) &&
            (forall k | k != id :: Lookup(b.sys.db, k) == Lookup(s.db, k)) &&
            forall x | x in b.history :: x in history
  {
    hide Transition, Target, Life, Stepped;
    steps := [];
    if history == [] {
      LifeNone(saga, id, Lookup(s.db, id));
    } else {
      var n := |history| - 1;
      assert history[n] in history;
      var done := Restart(saga, s, id, v, history[..n]);
      steps := Retrace(saga, s, done, id, v, history[n]);
      LifeConcat(saga, id, Lookup(s.db, id), history[..n], [history[n]]);
      assert history[..n] + [history[n]] == history;
    }
  }

  lemma LifeNone<S, E, M, C>(saga: Saga<S, E, M, C>, id: Key, i: Option<Instance<S>>)
    ensures Life(saga, id, i, []) == i
  {
  }

  lemma RowsInjective<E, M, C>(id: Key, d: Delivery<E, M>, a: seq<C>, b: seq<C>)
    requires Rows(id, d, a) == Rows(id, d, b)
    ensures a == b
  {
    assert |Rows(id, d, a)| == |Rows(id, d, b)|;
    forall i | 0 <= i < |a| ensures a[i] == b[i] { assert Rows(id, d, a)[i] == Rows(id, d, b)[i]; }
  }

  /** Different transitions at one version leave different databases. */
  lemma WorkedDiffers<S, E, M, C>(saga: Saga<S, E, M, C>, db: Db<S, C>, work: Work<S, C>, id: Key, a: Option<Instance<S>>, d: Delivery<E, M>)
    requires Target(saga, d) == Some(id) && id !in work.writes && Transition(saga, a, d).Applied?
    requires a.Some? && VersionMatches(Lookup(db, id), a) && Transition(saga, Lookup(db, id), d) != Transition(saga, a, d)
    ensures Installed(db, Worked(saga, work, Lookup(db, id), d)) != Installed(db, Worked(saga, work, a, d))
  {
    var o, p := Transition(saga, a, d), Transition(saga, Lookup(db, id), d);
    var x, y := Installed(db, Worked(saga, work, a, d)), Installed(db, Worked(saga, work, Lookup(db, id), d));
    assert x.instances[id] == o.instance && o.instance.stateVersion == a.value.stateVersion + 1;
    hide Transition;
    if p.Applied? {
      assert y.instances[id] == p.instance;
      if x == y {
        assert x.queue == db.queue + work.rows + Rows(id, d, o.commands);
        assert y.queue == db.queue + work.rows + Rows(id, d, p.commands);
        assert Rows(id, d, o.commands) == x.queue[|db.queue + work.rows|..];
        assert Rows(id, d, p.commands) == y.queue[|db.queue + work.rows|..];
        RowsInjective(id, d, o.commands, p.commands);
      }
    } else {
      assert y.instances[id] == db.instances[id];
    }
  }

  /** What the writes of a transaction with locks would be serially, after its
      delivery is applied to the row that is there now. */
  lemma OverlayNext<S(!new), E(!new), M(!new), C(!new)>(saga: Saga<S, E, M, C>, before: Db<S, C>, db: Db<S, C>, t: Txn<S, E, M, C>, id: Key, d: Delivery<E, M>)
    requires TxnInv(saga, before, t) && Target(saga, d) == Some(id) && id !in t.work.writes
    requires forall k | k != id :: Lookup(db, k) == Lookup(before, k)
    ensures Overlay(saga, db, t.taken + [d]) == Worked(saga, t.work, Lookup(db, id), d)
  {
    hide ReadingInv, Worked;
    assert SameRows(saga, before, db, t.taken);
    OverlaySame(saga, before, db, t.taken);
    assert (t.taken + [d])[..|t.taken|] == t.taken;
  }

  /** The compare-and-set and the commit of a transaction whose row is free and at
      the version it loaded. */
  lemma StaleSteps<S(!new), E(!new), M(!new), C(!new)>(saga: Saga<S, E, M, C>, t: Sys<S, E, M, C>, steps: seq<Step<E, M>>, u: Trace<S, E, M, C>, w: WorkerId, txn: Txn<S, E, M, C>, r: Reading<S, E, M>)
    requires Ran(saga, t, steps) == Some(u) && w in u.sys.workers && u.sys.workers[w] == txn && txn.reading == Some(r)
    requires Free(u.sys, r.id) && VersionMatches(Lookup(u.sys.db, r.id), r.seen)
    ensures var f := Ran(saga, t, steps + [Cas(w)] + [Commit(w)]);
            f.Some? && f.value.sys.db == Installed(u.sys.db, Worked(saga, txn.work, r.seen, r.delivery)) &&
            f.value.history == u.history + Entries(txn.taken + [r.delivery])
  {
    hide Ran, Worked, Installed, Spared, VersionMatches;
    RanStep(saga, t, steps, Cas(w));
    RanStep(saga, t, steps + [Cas(w)], Commit(w));
    assert u.history + [] == u.history;
  }

  /** The stale transition is not the serial effect of its delivery. */
  lemma StaleNotSerial<S(!new), E(!new), M(!new), C(!new)>(saga: Saga<S, E, M, C>, s: Sys<S, E, M, C>, t: Sys<S, E, M, C>, steps: seq<Step<E, M>>, u: Trace<S, E, M, C>, w: WorkerId, txn: Txn<S, E, M, C>, r: Reading<S, E, M>)
    requires Ran(saga, t, steps) == Some(u) && w in u.sys.workers && u.sys.workers[w] == txn && txn.reading == Some(r)
    requires Free(u.sys, r.id) && TxnInv(saga, s.db, txn) && forall k | k != r.id :: Lookup(u.sys.db, k) == Lookup(s.db, k)
    requires Target(saga, r.delivery) == Some(r.id) && Transition(saga, r.seen, r.delivery).Applied? && r.seen.Some?
    requires VersionMatches(Lookup(u.sys.db, r.id), r.seen)
    requires Transition(saga, Lookup(u.sys.db, r.id), r.delivery) != Transition(saga, r.seen, r.delivery)
    ensures !SerialFrom(saga, t)
  {
    hide Transition, TxnInv, Ran, Worked, Installed, SerialRun, Overlay, VersionMatches, Lookup;
    StaleSteps(saga, t, steps, u, w, txn, r);
    if SerialFrom(saga, t) {
      var ds := txn.taken + [r.delivery];
      SerialRunConcat(saga, t.db, u.history, Entries(ds));
      OverlayIsSerial(saga, u.sys.db, ds);
      OverlayNext(saga, s.db, u.sys.db, txn, r.id, r.delivery);
      WorkedDiffers(saga, u.sys.db, txn.work, r.id, r.seen, r.delivery);
    }
  }

  /** A transaction that has loaded a row when it is deleted. */
  lemma StaleReading<S(!new), E(!new), M(!new), C(!new)>(saga: Saga<S, E, M, C>, s: Sys<S, E, M, C>, id: Key, w: WorkerId)
    requires Inv(saga, s) && Enabled(s, Step<E, M>.Cleanup(id)) && w in s.workers && Reads(s.workers[w], id)
    ensures var txn, r := s.workers[w], s.workers[w].reading.value;
            TxnInv(saga, s.db, txn) && Locked(saga, txn) && id !in txn.work.writes &&
            Target(saga, r.delivery) == Some(id) && Refusal(saga, r.seen, r.delivery).None?
    ensures var t := Next(saga, s, Step<E, M>.Cleanup(id));
            t.workers == s.workers && Free(t, id) && Lookup(t.db, id).None? && forall k | k != id :: Lookup(t.db, k) == Lookup(s.db, k)
  {
    assert TxnInv(saga, s.db, s.workers[w]);
    hide Inv, Overlay, Harmless, Born, Refusal, Target;
  }

  /** A deletion under a transaction that has loaded the row: the instance starts
      again and gets to the version that was loaded, and the stale transition
      commits over it. */
  lemma StaleCommit<S(!new), E(!new), M(!new), C(!new)>(saga: Saga<S, E, M, C>, s: Sys<S, E, M, C>, id: Key, w: WorkerId, history: seq<Entry<E, M>>)
    requires Inv(saga, s) && Enabled(s, Step<E, M>.Cleanup(id)) && w in s.workers && Reads(s.workers[w], id)
    requires var r := s.workers[w].reading.value;
             var that := Life(saga, id, None, history);
             VersionMatches(that, r.seen) && Transition(saga, that, r.delivery) != Transition(saga, r.seen, r.delivery)
    ensures !SerialFrom(saga, Next(saga, s, Step<E, M>.Cleanup(id)))
  {
    var t := Next(saga, s, Step<E, M>.Cleanup(id));
    var txn := s.workers[w];
    var r := txn.reading.value;
    StaleReading(saga, s, id, w);
    hide Next, Life, Inv, TxnInv, Ran, Spared, SerialFrom, Enabled, Locked, Free, Lookup, React;
    assert Transition(saga, r.seen, r.delivery).Applied?;
    hide Transition, Refusal;
    var short := Shorten(saga, id, history);
    var v := Unused(s.workers.Keys);
    var steps := Restart(saga, t, id, v, short);
    StaleNotSerial(saga, s, t, steps, Ran(saga, t, steps).value, w, txn, r);
  }

  /** The exact condition for a deletion to be safe: every run that follows has the
      effect of its serial history if and only if whoever has loaded the row holds
      an instance that no new one can be mistaken for. */
  lemma CleanupSafeIff<S(!new), E(!new), M(!new), C(!new)>(saga: Saga<S, E, M, C>, s: Sys<S, E, M, C>, id: Key)
    requires Inv(saga, s) && Enabled(s, Step<E, M>.Cleanup(id))
    ensures SerialFrom(saga, Next(saga, s, Step<E, M>.Cleanup(id))) <==> Spared(saga, s, id)
  {
    var t := Next(saga, s, Step<E, M>.Cleanup(id));
    if Spared(saga, s, id) {
      StepSerial(saga, s, Cleanup(id));
      forall steps | Ran(saga, t, steps).Some?
        ensures Ran(saga, t, steps).value.sys.db == SerialRun(saga, t.db, Ran(saga, t, steps).value.history)
      {
        RunSerial(saga, t, steps);
      }
    } else {
      var w :| w in s.workers && Reads(s.workers[w], id) && !Harmless(saga, s.workers[w].reading.value);
      var r := s.workers[w].reading.value;
      var history: seq<Entry<E, M>> :|
        VersionMatches(Life(saga, id, None, history), r.seen) &&
        Transition(saga, Life(saga, id, None, history), r.delivery) != Transition(saga, r.seen, r.delivery);
      StaleCommit(saga, s, id, w, history);
    }
  }

  /** No transaction has loaded the row; rows are stored from version 1 on. */
  predicate Quiet<S, E, M, C>(s: Sys<S, E, M, C>, id: Key)
  {
    forall w | w in s.workers && Reads(s.workers[w], id) :: s.workers[w].reading.value.seen.value.stateVersion == 0
  }

  /** A saga of which no loaded row is harmless: whatever the instance, a new one
      can be at its version and react differently. */
  ghost predicate Renewing<S(!new), E(!new), M(!new), C(!new)>(saga: Saga<S, E, M, C>)
  {
    forall r: Reading<S, E, M> |
        Target(saga, r.delivery) == Some(r.id) && Refusal(saga, r.seen, r.delivery).None? &&
        r.seen.Some? && r.seen.value.stateVersion >= 1 :: !Harmless(saga, r)
  }

  lemma {:induction false} LifePositive<S, E, M, C>(saga: Saga<S, E, M, C>, id: Key, history: seq<Entry<E, M>>)
    ensures Life(saga, id, None, history).Some? ==> Life(saga, id, None, history).value.stateVersion >= 1
  {
    hide Refusal, React;
    if history != [] { LifePositive(saga, id, history[..|history| - 1]); }
  }

  /** For such a saga a deletion is safe exactly when no transaction has loaded the row. */
  lemma QuietIsExact<S(!new), E(!new), M(!new), C(!new)>(saga: Saga<S, E, M, C>, s: Sys<S, E, M, C>, id: Key)
    requires Renewing(saga) && Inv(saga, s) && Enabled(s, Step<E, M>.Cleanup(id))
    ensures SerialFrom(saga, Next(saga, s, Step<E, M>.Cleanup(id))) <==> Quiet(s, id)
  {
    hide SerialFrom, Transition, Refusal, Overlay, Born, Locked;
    CleanupSafeIff(saga, s, id);
    forall w | w in s.workers && Reads(s.workers[w], id)
      ensures Harmless(saga, s.workers[w].reading.value) <==> s.workers[w].reading.value.seen.value.stateVersion == 0
    {
      var r := s.workers[w].reading.value;
      assert TxnInv(saga, s.db, s.workers[w]);
      if r.seen.value.stateVersion == 0 {
        forall history: seq<Entry<E, M>> ensures !VersionMatches(Life(saga, r.id, None, history), r.seen) { LifePositive(saga, r.id, history); }
      }
    }
  }

  /** A saga that keeps what its first event said and passes it on. */
  const RELAY: Saga<int, (Key, int), int, int> :=
    Saga(1, (e: (Key, int)) => Some(e.0), (e: (Key, int)) => true, (e: (Key, int)) => e.1, (s: int, e: (Key, int)) => Reaction(s, [s], false), None, None)

  /** Events that start an instance with a value and bring it to version n, at the
      positions after p. */
  function Relayed(id: Key, value: int, n: nat, p: int): seq<Entry<(Key, int), int>>
  {
    seq(n, i => Delivered(EventDelivery(p + i + 1, (id, value))))
  }

  lemma {:induction false} RelayLife(id: Key, value: int, n: nat, p: int)
    ensures Life(RELAY, id, None, Relayed(id, value, n, p)) ==
              if n == 0 then None else Some(Instance(value, n, Active, 1, Some(p + n)))
  {
    if n > 0 {
      RelayLife(id, value, n - 1, p);
      assert Relayed(id, value, n, p)[..n - 1] == Relayed(id, value, n - 1, p);
    }
  }

  /** For one it is never safe to delete a row that a transaction has loaded. */
  lemma RelayRenews()
    ensures Renewing(RELAY)
  {
    forall r: Reading<int, (Key, int), int> |
        Target(RELAY, r.delivery) == Some(r.id) && Refusal(RELAY, r.seen, r.delivery).None? &&
        r.seen.Some? && r.seen.value.stateVersion >= 1
      ensures !Harmless(RELAY, r)
    {
      var n := r.seen.value.stateVersion;
      RelayLife(r.id, r.seen.value.state + 1, n, 0);
      var that := Life(RELAY, r.id, None, Relayed(r.id, r.seen.value.state + 1, n, 0));
      assert VersionMatches(that, r.seen);
      assert Transition(RELAY, that, r.delivery) != Transition(RELAY, r.seen, r.delivery);
    }
  }

  /** Some serial order of what a run has logged has the run's effect. */
  ghost predicate Orderable(db: Db<int, int>, f: Trace<int, (Key, int), int, int>)
  {
    exists order :: multiset(order) == multiset(f.history) && SerialRun(RELAY, db, order) == f.sys.db
  }

  /** What concerns the instance is the delivery d, or an event with the value at an
      earlier position. */
  predicate FromTwo(id: Key, value: int, d: Delivery<(Key, int), int>, e: Entry<(Key, int), int>)
  {
    !e.Removed? &&
    (e.Delivered? && Target(RELAY, e.delivery) == Some(id) ==>
       e.delivery == d || (e.delivery.EventDelivery? && e.delivery.event.1 == value && (d.EventDelivery? ==> e.delivery.pos < d.pos)))
  }

  /** In any order of such a history the instance keeps the value, or is at version 1. */
  lemma {:induction false} RelayOrders(id: Key, value: int, d: Delivery<(Key, int), int>, history: seq<Entry<(Key, int), int>>)
    requires Target(RELAY, d) == Some(id) && forall e | e in history :: FromTwo(id, value, d, e)
    ensures var i := Life(RELAY, id, None, history);
            i.None? || (i.value.status == Active &&
              (i.value.state == value || (d.EventDelivery? && i.value.stateVersion == 1 && i.value.lastEventPos == Some(d.pos))))
  {
    if history != [] {
      RelayOrders(id, value, d, history[..|history| - 1]);
      assert history[|history| - 1] in history;
    }
  }

  lemma RelayedAreFromTwo(id: Key, value: int, n: nat, d: Delivery<(Key, int), int>, u: seq<Entry<(Key, int), int>>, taken: seq<Delivery<(Key, int), int>>, order: seq<Entry<(Key, int), int>>)
    requires forall x | x in u :: x in Relayed(id, value, n, Before(d, n))
    requires forall x | x in taken :: Target(RELAY, x) != Some(id)
    requires multiset(order) == multiset(u + Entries(taken + [d]))
    ensures forall e | e in order :: FromTwo(id, value, d, e)
  {
    forall e | e in order ensures FromTwo(id, value, d, e) {
      assert e in multiset(order);
      if e !in u {
        assert e in Entries(taken + [d]);
        var i :| 0 <= i < |taken| + 1 && e == Entries(taken + [d])[i];
        if i < |taken| { assert taken[i] in taken; }
      }
    }
  }

  /** The run in which a stale transition commits over a new instance of such a saga
      does not have the effect of any serial order of its history. */
  lemma RelayDisordered(s: Sys<int, (Key, int), int, int>, id: Key, w: WorkerId) returns (steps: seq<Step<(Key, int), int>>)
    requires Inv(RELAY, s) && Enabled(s, Step<(Key, int), int>.Cleanup(id)) && w in s.workers && Reads(s.workers[w], id)
    requires s.workers[w].reading.value.seen.value.stateVersion >= 1
    ensures var t := Next(RELAY, s, Step<(Key, int), int>.Cleanup(id));
            Ran(RELAY, t, steps).Some? && !Orderable(t.db, Ran(RELAY, t, steps).value)
  {
    var t := Next(RELAY, s, Step<(Key, int), int>.Cleanup(id));
    var txn := s.workers[w];
    var r := txn.reading.value;
    StaleReading(RELAY, s, id, w);
    hide Next, Enabled, Reads, Inv, TxnInv, Ran, Orderable, Refusal, Lookup, Locked, VersionMatches;
    var done := RelayRestart(s.workers.Keys, t, id, r);
    var u := Ran(RELAY, t, done).value;
    assert u.sys.workers[w] == txn;
    StaleSteps(RELAY, t, done, u, w, txn, r);
    steps := done + [Cas(w)] + [Commit(w)];
    hide Free;
    NotOrderable(t.db, u, txn, r, Ran(RELAY, t, steps).value);
  }

  /** The positions that come before a delivery. */
  function Before(d: Delivery<(Key, int), int>, n: nat): int { if d.EventDelivery? then d.pos - n - 1 else 0 }

  lemma RelayRestart(ws: set<WorkerId>, t: Sys<int, (Key, int), int, int>, id: Key, r: Reading<int, (Key, int), int>) returns (done: seq<Step<(Key, int), int>>)
    requires ws == t.workers.Keys && Free(t, id) && Lookup(t.db, id).None? && r.seen.Some? && r.seen.value.stateVersion >= 1
    ensures Ran(RELAY, t, done).Some?
    ensures var u := Ran(RELAY, t, done).value;
            u.sys.workers == t.workers && VersionMatches(Lookup(u.sys.db, id), r.seen) &&
            forall x | x in u.history :: x in Relayed(id, r.seen.value.state + 1, r.seen.value.stateVersion, Before(r.delivery, r.seen.value.stateVersion))
  {
    var n := r.seen.value.stateVersion;
    var history := Relayed(id, r.seen.value.state + 1, n, Before(r.delivery, n));
    RelayLife(id, r.seen.value.state + 1, n, Before(r.delivery, n));
    var v := Unused(ws);
    assert forall x :: Removed(x) !in history;
    hide Relayed, Ran, Life, Free, Lookup;
    done := Restart(RELAY, t, id, v, history);
  }

  lemma NotOrderable(db: Db<int, int>, u: Trace<int, (Key, int), int, int>, txn: Txn<int, (Key, int), int, int>, r: Reading<int, (Key, int), int>, f: Trace<int, (Key, int), int, int>)
    requires Lookup(db, r.id).None? && r.seen.Some? && r.seen.value.stateVersion >= 1
    requires Target(RELAY, r.delivery) == Some(r.id) && Refusal(RELAY, r.seen, r.delivery).None?
    requires Locked(RELAY, txn) && r.id !in txn.work.writes
    requires var n := r.seen.value.stateVersion;
             forall x | x in u.history :: x in Relayed(r.id, r.seen.value.state + 1, n, Before(r.delivery, n))
    requires f.sys.db == Installed(u.sys.db, Worked(RELAY, txn.work, r.seen, r.delivery))
    requires f.history == u.history + Entries(txn.taken + [r.delivery])
    ensures !Orderable(db, f)
  {
    var value, n := r.seen.value.state + 1, r.seen.value.stateVersion;
    var last := f.sys.db.instances[r.id];
    assert last.state == r.seen.value.state && last.stateVersion == n + 1;
    hide Transition, Refusal, Worked, Installed, SerialRun;
    forall order | multiset(order) == multiset(f.history) ensures SerialRun(RELAY, db, order) != f.sys.db {
      RelayedAreFromTwo(r.id, value, n, r.delivery, u.history, txn.taken, order);
      RelayOrders(r.id, value, r.delivery, order);
      LifeIsLookup(RELAY, r.id, db, order);
    }
  }

  /** For such a saga, after a deletion every run has the effect of some serial order
      of what it has logged if and only if no transaction had loaded the row. */
  lemma RelayCleanupIff(s: Sys<int, (Key, int), int, int>, id: Key)
    requires Inv(RELAY, s) && Enabled(s, Step<(Key, int), int>.Cleanup(id))
    ensures var t := Next(RELAY, s, Step<(Key, int), int>.Cleanup(id));
            (forall steps | Ran(RELAY, t, steps).Some? :: Orderable(t.db, Ran(RELAY, t, steps).value)) <==> Quiet(s, id)
  {
    var t := Next(RELAY, s, Step<(Key, int), int>.Cleanup(id));
    hide Next, Inv, Ran, Renewing, SerialRun;
    if Quiet(s, id) {
      RelayRenews();
      QuietIsExact(RELAY, s, id);
      forall steps | Ran(RELAY, t, steps).Some? ensures Orderable(t.db, Ran(RELAY, t, steps).value) {
        var f := Ran(RELAY, t, steps).value;
        assert multiset(f.history) == multiset(f.history) && SerialRun(RELAY, t.db, f.history) == f.sys.db;
      }
    } else {
      var w :| w in s.workers && Reads(s.workers[w], id) && s.workers[w].reading.value.seen.value.stateVersion != 0;
      var steps := RelayDisordered(s, id, w);
    }
  }

  // ---------------------------------------------------------------------------
  // Redelivery to one instance
  // ---------------------------------------------------------------------------

  datatype Progress<S, C> = Progress(instance: Option<Instance<S>>, commands: seq<C>)

  /** Deliveries, with duplicates and in any order, to one instance. */
  function AfterDeliveries<S, E, M, C>(saga: Saga<S, E, M, C>, ds: seq<Delivery<E, M>>): Progress<S, C>
  {
    if ds == [] then Progress(None, [])
    else
      var p := AfterDeliveries(saga, ds[..|ds| - 1]);
      var o := Transition(saga, p.instance, ds[|ds| - 1]);
      if o.Applied? then Progress(Some(o.instance), p.commands + o.commands) else p
  }

  /** The deliveries that count, told by positions alone: the event that starts
      the instance, every later event past all positions taken before, and every
      timer once it is started. */
  ghost function Taken<S, E, M, C>(saga: Saga<S, E, M, C>, ds: seq<Delivery<E, M>>): seq<Delivery<E, M>>
  {
    if ds == [] then []
    else
      var before := Taken(saga, ds[..|ds| - 1]);
      var d := ds[|ds| - 1];
      if before == [] then (if d.EventDelivery? && saga.starts(d.event) then [d] else [])
      else if d.TimerDelivery? || forall x | x in before && x.EventDelivery? :: d.pos > x.pos then before + [d]
      else before
  }

  datatype Reduced<S, C> = Reduced(state: S, steps: nat, last: int, commands: seq<C>, ended: bool)

  /** The reducer alone over a non-empty list, cut at the first reaction that ends. */
  function Reduce<S, E, M, C>(saga: Saga<S, E, M, C>, ds: seq<Delivery<E, M>>): Reduced<S, C>
    requires ds != [] && ds[0].EventDelivery?
  {
    var d := ds[|ds| - 1];
    if |ds| == 1 then
      var r := saga.react(saga.initial(d.event), d.event);
      Reduced(r.newState, 1, d.pos, r.commands, r.end)
    else
      var p := Reduce(saga, ds[..|ds| - 1]);
      if p.ended then p
      else
        var r := React(saga, p.state, d);
        Reduced(r.newState, p.steps + 1, if d.EventDelivery? then d.pos else p.last, p.commands + r.commands, r.end)
  }

  lemma {:induction false} TakenStarts<S, E, M, C>(saga: Saga<S, E, M, C>, ds: seq<Delivery<E, M>>)
    ensures Taken(saga, ds) != [] ==> Taken(saga, ds)[0].EventDelivery? && saga.starts(Taken(saga, ds)[0].event)
  {
    if ds != [] { TakenStarts(saga, ds[..|ds| - 1]); }
  }

  /** The last position of the reducer bounds the taken positions until it ends. */
  lemma {:induction false} LastIsGreatest<S, E, M, C>(saga: Saga<S, E, M, C>, ds: seq<Delivery<E, M>>)
    requires Taken(saga, ds) != []
    ensures Taken(saga, ds)[0].EventDelivery?
    ensures !Reduce(saga, Taken(saga, ds)).ended ==>
              (forall x | x in Taken(saga, ds) && x.EventDelivery? :: x.pos <= Reduce(saga, Taken(saga, ds)).last) &&
              exists x :: x in Taken(saga, ds) && x.EventDelivery? && x.pos == Reduce(saga, Taken(saga, ds)).last
  {
    TakenStarts(saga, ds);
    var before, now := Taken(saga, ds[..|ds| - 1]), Taken(saga, ds);
    if before != [] {
      LastIsGreatest(saga, ds[..|ds| - 1]);
      if now != before {
        assert now[..|now| - 1] == before;
      }
    } else {
      assert now == [ds[|ds| - 1]];
    }
  }

  /** Redelivery is harmless: the instance and its commands are those of the pure
      reducer over the deliveries that count, cut at the first end. */
  lemma {:induction false} RedeliveryIdempotent<S, E, M, C>(saga: Saga<S, E, M, C>, ds: seq<Delivery<E, M>>)
    ensures Taken(saga, ds) == [] ==> AfterDeliveries(saga, ds) == Progress(None, [])
    ensures Taken(saga, ds) != [] ==>
              Taken(saga, ds)[0].EventDelivery? &&
              var r := Reduce(saga, Taken(saga, ds));
              AfterDeliveries(saga, ds) ==
                Progress(Some(Instance(r.state, r.steps, if r.ended then Completed else Active, saga.version, Some(r.last))), r.commands)
  {
    if ds != [] {
      var d := ds[|ds| - 1];
      RedeliveryIdempotent(saga, ds[..|ds| - 1]);
      TakenStarts(saga, ds);
      var before, now := Taken(saga, ds[..|ds| - 1]), Taken(saga, ds);
      if before == [] {
        if now != [] { assert now == [d]; }
      } else {
        LastIsGreatest(saga, ds[..|ds| - 1]);
        if now != before { assert now[..|now| - 1] == before; }
      }
    }
  }

  /** A terminal instance never changes again, whatever is delivered. */
  lemma {:induction false} TerminalStays<S, E, M, C>(saga: Saga<S, E, M, C>, db: Db<S, C>, d: Delivery<E, M>, id: Key)
    requires id in db.instances && db.instances[id].status != Active
    ensures id in Serial(saga, db, d).instances && Serial(saga, db, d).instances[id] == db.instances[id]
    ensures Target(saga, d) == Some(id) ==> Serial(saga, db, d) == db
  {
  }
}
