/** Repositories with snapshots: load and save by many holders of one aggregate
    (packages/core/src/repository.ts, packages/postgres/src/snapshots/pg-snapshot-store.ts). */
module Repository {
  import opened Wrappers
  import opened Aggregates

  datatype Snapshot<S> = Snapshot(version: nat, schema: int, state: S)

  /** The stream of one aggregate, without dismissed events, and its snapshot row. */
  datatype Db<S, E> = Db(events: seq<E>, snapshot: Option<Snapshot<S>>)

  /** The repository and its snapshot store. jsonb is what a state becomes when it
      is stored and read back; upcast is the upcaster of an old schema version. */
  datatype Config<!S, !E> = Config(
    initial: S, handlers: Handlers<S, E>, snapshots: bool, everyNEvents: nat,
    schemaVersion: int, currentSchemaVersion: int, upcast: int -> Option<S -> S>, jsonb: S -> S)

  /** An aggregate in someone's hands. */
  datatype Holder<S, E> = Holder(version: nat, state: S, pending: seq<E>)

  /** upcastState; None is the error for a missing upcaster. */
  function ReadState<S, E>(c: Config<S, E>, snap: Snapshot<S>): Option<S>
  {
    if snap.schema == c.currentSchemaVersion then Some(snap.state)
    else if c.upcast(snap.schema).None? then None
    else Some(c.upcast(snap.schema).value(snap.state))
  }

  /** The events from a version on. */
  function Tail<E>(events: seq<E>, version: nat): seq<E> { if version <= |events| then events[version..] else [] }

  /** load: the snapshot, if there is one, and the events behind it. */
  function Load<S, E>(c: Config<S, E>, db: Db<S, E>): Option<Holder<S, E>>
  {
    var base := if c.snapshots && db.snapshot.Some? then db.snapshot.value.version else 0;
    var from := if c.snapshots && db.snapshot.Some? then ReadState(c, db.snapshot.value) else Some(c.initial);
    if from.None? then None
    else
      var state := Replay(c.handlers, from.value, Tail(db.events, base));
      if state.None? then None
      else Some(Holder(if Tail(db.events, base) == [] then base else |db.events|, state.value, []))
  }

  predicate Due<S, E>(c: Config<S, E>, version: nat, force: bool)
  {
    c.snapshots && (force || (c.everyNEvents > 0 && version % c.everyNEvents == 0))
  }

  /** The upsert of the snapshot store: an older snapshot does not replace a newer one. */
  function Upserted<S>(old_: Option<Snapshot<S>>, new_: Snapshot<S>): Option<Snapshot<S>>
  {
    if old_.Some? && old_.value.version > new_.version then old_ else Some(new_)
  }

  datatype Saved<S, E> = Nothing | Rejected | Committed(db: Db<S, E>, holder: Holder<S, E>)

  /** save: append through the version gate, then the snapshot. */
  function Save<S, E>(c: Config<S, E>, db: Db<S, E>, h: Holder<S, E>, force: bool): Saved<S, E>
  {
    if h.pending == [] then Nothing
    else if h.version != |db.events| then Rejected
    else
      var version := h.version + |h.pending|;
      Committed(
        Db(db.events + h.pending,
           if Due(c, version, force) then Upserted(db.snapshot, Snapshot(version, c.schemaVersion, c.jsonb(h.state))) else db.snapshot),
        Holder(version, h.state, []))
  }

  /** Where a save that passes the gate fails, if it does: in the append, before the
      aggregate's version is set, or after it, in the inline projector, the snapshot
      store or the commit. */
  datatype Failure = NoFailure | InAppend | AfterAppend

  /** The database and the aggregate after save. The aggregate has given its pending
      events away whatever happens, and a rollback does not take its version back. */
  function Settled<S, E>(c: Config<S, E>, db: Db<S, E>, h: Holder<S, E>, force: bool, failure: Failure): (Db<S, E>, Holder<S, E>)
  {
    match Save(c, db, h, force)
    case Nothing => (db, h)
    case Rejected => (db, h.(pending := []))
    case Committed(after, saved) =>
      match failure
      case NoFailure => (after, saved)
      case InAppend => (db, h.(pending := []))
      case AfterAppend => (db, saved)
  }

  // ---------------------------------------------------------------------------
  // Runs
  // ---------------------------------------------------------------------------

  type HolderId = nat

  /** spent are the holders whose save was rolled back and who have not loaded since. */
  datatype Sys<S, E> = Sys(db: Db<S, E>, holders: map<HolderId, Holder<S, E>>, spent: set<HolderId>)

  datatype Step<E> =
    | LoadFor(id: HolderId)
    | Raise(id: HolderId, e: E)
    | SaveBy(id: HolderId, force: bool, failure: Failure)
    | Drop(id: HolderId)

  function Next<S, E>(c: Config<S, E>, s: Sys<S, E>, step: Step<E>): Sys<S, E>
  {
    match step
    case LoadFor(id) =>
      var h := Load(c, s.db);
      if h.None? then s else Sys(s.db, s.holders[id := h.value], s.spent - {id})
    case Raise(id, e) =>
      if id !in s.holders then s
      else
        var h := s.holders[id];
        var state := c.handlers(h.state, e);
        if state.None? then s else s.(holders := s.holders[id := Holder(h.version, state.value, h.pending + [e])])
    case SaveBy(id, force, failure) =>
      if id !in s.holders then s
      else
        var r := Settled(c, s.db, s.holders[id], force, failure);
        Sys(r.0, s.holders[id := r.1],
            if Save(c, s.db, s.holders[id], force).Committed? && failure != NoFailure then s.spent + {id} else s.spent)
    case Drop(id) => Sys(s.db, s.holders - {id}, s.spent - {id})
  }

  function After<S, E>(c: Config<S, E>, steps: seq<Step<E>>): Sys<S, E>
  {
    if steps == [] then Sys(Db([], None), map[], {}) else Next(c, After(c, steps[..|steps| - 1]), steps[|steps| - 1])
  }

  /** After a rolled-back save an aggregate is loaded again, or dropped, before it is
      saved. */
  predicate Disciplined<S, E>(c: Config<S, E>, steps: seq<Step<E>>)
  {
    steps == [] ||
    (Disciplined(c, steps[..|steps| - 1]) &&
     (steps[|steps| - 1].SaveBy? ==> steps[|steps| - 1].id !in After(c, steps[..|steps| - 1]).spent))
  }

  // ---------------------------------------------------------------------------
  // The snapshot shortcut agrees with full replay
  // ---------------------------------------------------------------------------

  type Equivalence<!S> = (S, S) -> bool

  /** same is an equivalence that handlers cannot tell apart, and that storing and
      upcasting a state keep: equality of states up to their JSON form, say. */
  ghost predicate Respects<S(!new), E(!new)>(c: Config<S, E>, same: Equivalence<S>)
  {
    (forall a {:trigger same(a, a)} :: same(a, a)) &&
    (forall a, b {:trigger same(a, b)} :: same(a, b) ==> same(b, a)) &&
    (forall a, b, d {:trigger same(a, b), same(b, d)} :: same(a, b) && same(b, d) ==> same(a, d)) &&
    (forall a, b, e {:trigger same(a, b), c.handlers(a, e)} | same(a, b) ::
       (c.handlers(a, e).None? <==> c.handlers(b, e).None?) &&
       (c.handlers(a, e).Some? ==> same(c.handlers(a, e).value, c.handlers(b, e).value))) &&
    (forall a :: same(c.jsonb(a), a)) &&
    (c.schemaVersion == c.currentSchemaVersion ||
     (c.upcast(c.schemaVersion).Some? && forall a {:trigger c.upcast(c.schemaVersion).value(a)} :: same(c.upcast(c.schemaVersion).value(a), a)))
  }

  ghost predicate SameState<S>(same: Equivalence<S>, a: S, b: Option<S>) { b.Some? && same(a, b.value) }

  lemma {:induction false} ReplayRespects<S(!new), E(!new)>(c: Config<S, E>, same: Equivalence<S>, a: S, b: S, events: seq<E>)
    requires Respects(c, same) && same(a, b)
    ensures Replay(c.handlers, a, events).None? <==> Replay(c.handlers, b, events).None?
    ensures Replay(c.handlers, a, events).Some? ==> same(Replay(c.handlers, a, events).value, Replay(c.handlers, b, events).value)
  {
    if events != [] { ReplayRespects(c, same, a, b, events[..|events| - 1]); }
  }

  /** The stream replays, the snapshot is the state at its version, and whoever
      holds the newest version, without a rolled-back save, holds the newest state. */
  ghost predicate Inv<S(!new), E(!new)>(c: Config<S, E>, same: Equivalence<S>, s: Sys<S, E>)
  {
    Replay(c.handlers, c.initial, s.db.events).Some? &&
    SnapshotRight(c, same, s.db) &&
    forall id | id in s.holders && id !in s.spent :: HolderRight(c, same, s.db, s.holders[id])
  }

  ghost predicate SnapshotRight<S(!new), E(!new)>(c: Config<S, E>, same: Equivalence<S>, db: Db<S, E>)
  {
    db.snapshot.Some? ==>
      db.snapshot.value.version <= |db.events| && db.snapshot.value.schema == c.schemaVersion &&
      SameState(same, db.snapshot.value.state, Replay(c.handlers, c.initial, db.events[..db.snapshot.value.version]))
  }

  ghost predicate HolderRight<S(!new), E(!new)>(c: Config<S, E>, same: Equivalence<S>, db: Db<S, E>, h: Holder<S, E>)
  {
    h.version <= |db.events| &&
    (h.version == |db.events| ==> SameState(same, h.state, Replay(c.handlers, c.initial, db.events + h.pending)))
  }

  /** Loading through the snapshot gives the newest version and the state of a full
      replay. */
  lemma LoadAgrees<S(!new), E(!new)>(c: Config<S, E>, same: Equivalence<S>, db: Db<S, E>)
    requires Respects(c, same) && SnapshotRight(c, same, db) && Replay(c.handlers, c.initial, db.events).Some?
    ensures Load(c, db).Some? && Load(c, db).value.version == |db.events| && Load(c, db).value.pending == []
    ensures same(Load(c, db).value.state, Replay(c.handlers, c.initial, db.events).value)
  {
    if c.snapshots && db.snapshot.Some? {
      var snap := db.snapshot.value;
      var head, tail := db.events[..snap.version], db.events[snap.version..];
      assert head + tail == db.events;
      ReplayConcat(c.handlers, c.initial, head, tail);
      var from := ReadState(c, snap).value;
      assert same(from, snap.state);
      ReplayRespects(c, same, from, Replay(c.handlers, c.initial, head).value, tail);
    } else {
      assert db.events[0..] == db.events;
    }
  }

  /** Loading through a snapshot, whatever its schema: a state of the current schema is
      taken as it is, an older one goes through its upcaster, and without one the
      load fails; the rest of the stream is replayed on top. */
  lemma LoadThroughSnapshot<S, E>(c: Config<S, E>, db: Db<S, E>, snap: Snapshot<S>)
    requires c.snapshots && db.snapshot == Some(snap) && snap.version <= |db.events|
    ensures snap.schema != c.currentSchemaVersion && c.upcast(snap.schema).None? ==> Load(c, db).None?
    ensures snap.schema == c.currentSchemaVersion ==>
              Load(c, db) == OnTop(c, snap.version, snap.state, db.events[snap.version..])
    ensures snap.schema != c.currentSchemaVersion && c.upcast(snap.schema).Some? ==>
              Load(c, db) == OnTop(c, snap.version, c.upcast(snap.schema).value(snap.state), db.events[snap.version..])
  {
  }

  /** A state at a version, with the events behind it replayed. */
  function OnTop<S, E>(c: Config<S, E>, version: nat, state: S, rest: seq<E>): Option<Holder<S, E>>
  {
    var after := Replay(c.handlers, state, rest);
    if after.None? then None else Some(Holder(version + |rest|, after.value, []))
  }

  lemma RaiseKeepsRight<S(!new), E(!new)>(c: Config<S, E>, same: Equivalence<S>, db: Db<S, E>, h: Holder<S, E>, e: E)
    requires Respects(c, same) && HolderRight(c, same, db, h) && c.handlers(h.state, e).Some?
    ensures HolderRight(c, same, db, Holder(h.version, c.handlers(h.state, e).value, h.pending + [e]))
  {
    var es := db.events + h.pending;
    assert db.events + (h.pending + [e]) == es + [e];
    assert (es + [e])[..|es|] == es;
  }

  lemma SaveKeepsRight<S(!new), E(!new)>(c: Config<S, E>, same: Equivalence<S>, db: Db<S, E>, h: Holder<S, E>, force: bool)
    requires Respects(c, same) && SnapshotRight(c, same, db) && HolderRight(c, same, db, h) && Save(c, db, h, force).Committed?
    ensures var r := Save(c, db, h, force);
            Replay(c.handlers, c.initial, r.db.events).Some? && SnapshotRight(c, same, r.db) && HolderRight(c, same, r.db, r.holder)
  {
    var r := Save(c, db, h, force);
    assert r.db.events + [] == r.db.events;
    assert r.db.events[..|r.db.events|] == r.db.events;
    if db.snapshot.Some? {
      assert r.db.events[..db.snapshot.value.version] == db.events[..db.snapshot.value.version];
    }
  }

  /** A committed save never replaces a snapshot by an older one, and when one is
      due the snapshot is that of the newest version, so that the next load replays
      nothing. */
  lemma SnapshotAdvances<S(!new), E(!new)>(c: Config<S, E>, same: Equivalence<S>, db: Db<S, E>, h: Holder<S, E>, force: bool)
    requires SnapshotRight(c, same, db) && Save(c, db, h, force).Committed?
    ensures var after := Save(c, db, h, force).db;
            (db.snapshot.Some? ==> after.snapshot.Some? && after.snapshot.value.version >= db.snapshot.value.version) &&
            (c.snapshots && (force || (c.everyNEvents > 0 && |after.events| % c.everyNEvents == 0)) ==>
               after.snapshot.Some? && after.snapshot.value.version == |after.events| && Tail(after.events, after.snapshot.value.version) == [])
  {
  }

  lemma {:induction false} StepKeepsInv<S(!new), E(!new)>(c: Config<S, E>, same: Equivalence<S>, s: Sys<S, E>, step: Step<E>)
    requires Respects(c, same) && Inv(c, same, s) && (step.SaveBy? ==> step.id !in s.spent)
    ensures Inv(c, same, Next(c, s, step))
  {
    hide Respects, SnapshotRight, HolderRight;
    match step
    case LoadFor(id) => LoadedRight(c, same, s.db);
    case Raise(id, e) =>
      if id in s.holders && id !in s.spent && c.handlers(s.holders[id].state, e).Some? { RaiseKeepsRight(c, same, s.db, s.holders[id], e); }
    case SaveBy(id, force, failure) =>
      if id in s.holders {
        var r := Save(c, s.db, s.holders[id], force);
        if r.Committed? && failure == NoFailure {
          SaveKeepsRight(c, same, s.db, s.holders[id], force);
          forall v | v in s.holders && v !in s.spent ensures HolderRight(c, same, r.db, s.holders[v]) { OthersStale(c, same, s.db, s.holders[v], r.db); }
        } else if r.Rejected? {
          RejectedRight(c, same, s.db, s.holders[id]);
        }
      }
    case Drop(id) =>
  }

  /** A holder that is dropped is gone, and nothing else has changed. */
  lemma DroppedGone<S, E>(c: Config<S, E>, s: Sys<S, E>, id: HolderId)
    ensures var t := Next(c, s, Drop(id));
            t.db == s.db && t.holders.Keys == s.holders.Keys - {id} && id !in t.spent &&
            forall v | v in t.holders :: t.holders[v] == s.holders[v] && (v in t.spent <==> v in s.spent)
  {
  }

  lemma LoadedRight<S(!new), E(!new)>(c: Config<S, E>, same: Equivalence<S>, db: Db<S, E>)
    requires Respects(c, same) && SnapshotRight(c, same, db) && Replay(c.handlers, c.initial, db.events).Some?
    ensures Load(c, db).Some? && HolderRight(c, same, db, Load(c, db).value)
  {
    LoadAgrees(c, same, db);
    assert db.events + [] == db.events;
  }

  lemma OthersStale<S(!new), E(!new)>(c: Config<S, E>, same: Equivalence<S>, db: Db<S, E>, h: Holder<S, E>, after: Db<S, E>)
    requires HolderRight(c, same, db, h) && |after.events| > |db.events|
    ensures HolderRight(c, same, after, h)
  {
  }

  lemma RejectedRight<S(!new), E(!new)>(c: Config<S, E>, same: Equivalence<S>, db: Db<S, E>, h: Holder<S, E>)
    requires HolderRight(c, same, db, h) && h.version != |db.events|
    ensures HolderRight(c, same, db, h.(pending := []))
  {
  }

  lemma {:induction false} RunKeepsInv<S(!new), E(!new)>(c: Config<S, E>, same: Equivalence<S>, steps: seq<Step<E>>)
    requires Respects(c, same) && Disciplined(c, steps)
    ensures Inv(c, same, After(c, steps))
  {
    if steps != [] {
      RunKeepsInv(c, same, steps[..|steps| - 1]);
      StepKeepsInv(c, same, After(c, steps[..|steps| - 1]), steps[|steps| - 1]);
    }
  }

  /** Loading gives what a full replay gives: the newest version and its state, or an
      error. */
  ghost predicate Agrees<S, E>(c: Config<S, E>, same: Equivalence<S>, db: Db<S, E>)
  {
    var full := Replay(c.handlers, c.initial, db.events);
    if full.None? then Load(c, db).None?
    else Load(c, db).Some? && Load(c, db).value.version == |db.events| && same(Load(c, db).value.state, full.value)
  }

  /** Snapshot agreement: after any run of loads, raises, saves and failures by any
      number of holders, and for any snapshot interval, the stream replays and loading
      through the latest snapshot agrees with the replay, if nobody saves an
      aggregate whose last save was rolled back. */
  lemma {:induction false} SnapshotAgreement<S(!new), E(!new)>(c: Config<S, E>, same: Equivalence<S>, steps: seq<Step<E>>)
    requires Respects(c, same) && Disciplined(c, steps)
    ensures var db := After(c, steps).db;
            Replay(c.handlers, c.initial, db.events).Some? && Agrees(c, same, db)
  {
    RunKeepsInv(c, same, steps);
    LoadAgrees(c, same, After(c, steps).db);
  }

  // ---------------------------------------------------------------------------
  // An aggregate that is saved again after a rolled-back save
  // ---------------------------------------------------------------------------

  /** One event leads from two histories, the first no shorter, to different states,
      or cannot follow the second. */
  ghost predicate Differs<S(!new), E(!new)>(c: Config<S, E>, same: Equivalence<S>, a: seq<E>, b: seq<E>, e: E)
  {
    |a| >= |b| && Replay(c.handlers, c.initial, b).Some? && Replay(c.handlers, c.initial, a + [e]).Some? &&
    !SameState(same, Replay(c.handlers, c.initial, a + [e]).value, Replay(c.handlers, c.initial, b + [e]))
  }

  ghost predicate Confusable<S(!new), E(!new)>(c: Config<S, E>, same: Equivalence<S>)
  {
    exists a, b, e :: Differs(c, same, a, b, e)
  }

  /** What any holder has: the state of some history, its pending events last, that is
      no shorter than its version. */
  ghost predicate SomeHistory<S(!new), E(!new)>(c: Config<S, E>, same: Equivalence<S>, h: Holder<S, E>, past: seq<E>)
  {
    |past| >= h.version && SameState(same, h.state, Replay(c.handlers, c.initial, past + h.pending))
  }

  ghost predicate HasHistory<S(!new), E(!new)>(c: Config<S, E>, same: Equivalence<S>, h: Holder<S, E>)
  {
    exists past :: SomeHistory(c, same, h, past)
  }

  ghost predicate LooseInv<S(!new), E(!new)>(c: Config<S, E>, same: Equivalence<S>, s: Sys<S, E>)
  {
    Replay(c.handlers, c.initial, s.db.events).Some? && SnapshotRight(c, same, s.db) &&
    forall id | id in s.holders :: HasHistory(c, same, s.holders[id])
  }

  /** Where histories cannot be confused, the same events lead from a longer history
      and from the stream to the same state. */
  lemma {:induction false} SameAfter<S(!new), E(!new)>(c: Config<S, E>, same: Equivalence<S>, past: seq<E>, stream: seq<E>, events: seq<E>)
    requires !Confusable(c, same) && |past| >= |stream| && events != []
    requires Replay(c.handlers, c.initial, past + events).Some? && Replay(c.handlers, c.initial, stream).Some?
    ensures SameState(same, Replay(c.handlers, c.initial, past + events).value, Replay(c.handlers, c.initial, stream + events))
  {
    var n := |events| - 1;
    assert (past + events)[..|past| + n] == past + events[..n];
    assert past + events == past + events[..n] + [events[n]] && stream + events == stream + events[..n] + [events[n]];
    if n > 0 {
      SameAfter(c, same, past, stream, events[..n]);
    } else {
      assert stream + events[..n] == stream;
    }
    assert !Differs(c, same, past + events[..n], stream + events[..n], events[n]);
  }

  lemma LooseSave<S(!new), E(!new)>(c: Config<S, E>, same: Equivalence<S>, db: Db<S, E>, h: Holder<S, E>, force: bool, failure: Failure)
    requires Respects(c, same) && !Confusable(c, same) && SnapshotRight(c, same, db) && HasHistory(c, same, h)
    requires Replay(c.handlers, c.initial, db.events).Some?
    ensures var r := Settled(c, db, h, force, failure);
            Replay(c.handlers, c.initial, r.0.events).Some? && SnapshotRight(c, same, r.0) && HasHistory(c, same, r.1)
  {
    var past :| SomeHistory(c, same, h, past);
    var r := Settled(c, db, h, force, failure);
    assert past + h.pending + [] == past + h.pending;
    assert SomeHistory(c, same, r.1, if r.1.pending == [] then past + h.pending else past);
    if Save(c, db, h, force).Committed? && failure == NoFailure {
      SameAfter(c, same, past, db.events, h.pending);
      assert r.0.events[..|r.0.events|] == r.0.events;
      if db.snapshot.Some? {
        assert r.0.events[..db.snapshot.value.version] == db.events[..db.snapshot.value.version];
      }
    }
  }

  lemma LooseRaise<S(!new), E(!new)>(c: Config<S, E>, same: Equivalence<S>, h: Holder<S, E>, e: E)
    requires Respects(c, same) && HasHistory(c, same, h) && c.handlers(h.state, e).Some?
    ensures HasHistory(c, same, Holder(h.version, c.handlers(h.state, e).value, h.pending + [e]))
  {
    var past :| SomeHistory(c, same, h, past);
    var es := past + h.pending;
    assert past + (h.pending + [e]) == es + [e] && (es + [e])[..|es|] == es;
    assert SomeHistory(c, same, Holder(h.version, c.handlers(h.state, e).value, h.pending + [e]), past);
  }

  lemma {:induction false} LooseRun<S(!new), E(!new)>(c: Config<S, E>, same: Equivalence<S>, steps: seq<Step<E>>)
    requires Respects(c, same) && !Confusable(c, same)
    ensures LooseInv(c, same, After(c, steps))
  {
    hide Respects, Confusable, SnapshotRight, HasHistory, Settled;
    if steps == [] {
      NothingSnapshot(c, same);
    } else {
      LooseRun(c, same, steps[..|steps| - 1]);
      var s := After(c, steps[..|steps| - 1]);
      match steps[|steps| - 1]
      case LoadFor(id) => LooseLoad(c, same, s.db);
      case Raise(id, e) =>
        if id in s.holders && c.handlers(s.holders[id].state, e).Some? { LooseRaise(c, same, s.holders[id], e); }
      case SaveBy(id, force, failure) =>
        if id in s.holders { LooseSave(c, same, s.db, s.holders[id], force, failure); }
      case Drop(id) =>
    }
  }

  lemma NothingSnapshot<S(!new), E(!new)>(c: Config<S, E>, same: Equivalence<S>)
    ensures SnapshotRight(c, same, Db([], None))
  {
  }

  lemma LooseLoad<S(!new), E(!new)>(c: Config<S, E>, same: Equivalence<S>, db: Db<S, E>)
    requires Respects(c, same) && SnapshotRight(c, same, db) && Replay(c.handlers, c.initial, db.events).Some?
    ensures Load(c, db).Some? && HasHistory(c, same, Load(c, db).value)
  {
    LoadAgrees(c, same, db);
    assert db.events + [] == db.events;
    assert SomeHistory(c, same, Load(c, db).value, db.events);
  }

  lemma {:induction false} Raises<S, E>(c: Config<S, E>, done: seq<Step<E>>, id: HolderId, h: Holder<S, E>, es: seq<E>) returns (steps: seq<Step<E>>)
    requires id in After(c, done).holders && After(c, done).holders[id] == h && Replay(c.handlers, h.state, es).Some?
    ensures After(c, steps) ==
              After(c, done).(holders := After(c, done).holders[id := Holder(h.version, Replay(c.handlers, h.state, es).value, h.pending + es)])
  {
    hide After, Load, Settled;
    if es == [] {
      steps := done;
      assert h.pending + [] == h.pending;
    } else {
      var n := |es| - 1;
      var before := Raises(c, done, id, h, es[..n]);
      steps := before + [Raise(id, es[n])];
      AfterStep(c, before, Raise(id, es[n]));
      assert h.pending + es[..n] + [es[n]] == h.pending + es;
    }
  }

  lemma AfterStep<S, E>(c: Config<S, E>, steps: seq<Step<E>>, step: Step<E>)
    ensures After(c, steps + [step]) == Next(c, After(c, steps), step)
  {
    assert (steps + [step])[..|steps|] == steps;
  }

  /** Nothing is stored and there is one holder. */
  ghost predicate Alone<S, E>(s: Sys<S, E>, h: Holder<S, E>)
  {
    s.db.events == [] && s.db.snapshot.None? && s.holders == map[0 := h]
  }

  lemma LoadedAlone<S, E>(c: Config<S, E>)
    ensures Alone(After(c, [LoadFor(0)]), Holder(0, c.initial, []))
  {
    var none: seq<Step<E>> := [];
    AfterStep(c, none, LoadFor(0));
    assert none + [LoadFor(0)] == [LoadFor(0)];
  }

  lemma RaisesAlone<S, E>(c: Config<S, E>, done: seq<Step<E>>, h: Holder<S, E>, es: seq<E>) returns (steps: seq<Step<E>>)
    requires Alone(After(c, done), h) && h.pending == [] && Replay(c.handlers, h.state, es).Some?
    ensures Alone(After(c, steps), Holder(h.version, Replay(c.handlers, h.state, es).value, es))
  {
    steps := Raises(c, done, 0, h, es);
    hide After, Replay;
    assert h.pending + es == es;
  }

  lemma FailsAlone<S, E>(c: Config<S, E>, done: seq<Step<E>>, h: Holder<S, E>, failure: Failure)
    requires Alone(After(c, done), h) && failure != NoFailure
    ensures Alone(After(c, done + [SaveBy(0, true, failure)]),
                  Holder(if h.version == 0 && failure == AfterAppend then |h.pending| else h.version, h.state, []))
  {
    AfterStep(c, done, SaveBy(0, true, failure));
    hide After;
  }

  /** A holder can come to have the version of one history and the state of another:
      it loads the empty stream, saves the beginning of the longer history and is
      rolled back after its version is set, then raises the rest and loses it in a
      failed save. */
  lemma {:induction false} Spend<S, E>(c: Config<S, E>, a: seq<E>, n: nat) returns (steps: seq<Step<E>>)
    requires Replay(c.handlers, c.initial, a).Some? && n <= |a|
    ensures Alone(After(c, steps), Holder(n, Replay(c.handlers, c.initial, a).value, []))
  {
    ReplayConcat(c.handlers, c.initial, a[..n], a[n..]);
    assert a[..n] + a[n..] == a;
    hide After, Replay, Alone;
    LoadedAlone(c);
    var raised := RaisesAlone(c, [LoadFor(0)], Holder(0, c.initial, []), a[..n]);
    var mid := Replay(c.handlers, c.initial, a[..n]).value;
    FailsAlone(c, raised, Holder(0, mid, a[..n]), AfterAppend);
    var again := RaisesAlone(c, raised + [SaveBy(0, true, AfterAppend)], Holder(n, mid, []), a[n..]);
    FailsAlone(c, again, Holder(n, Replay(c.handlers, c.initial, a).value, a[n..]), InAppend);
    steps := again + [SaveBy(0, true, InAppend)];
  }

  /** Another holder saves a history. */
  lemma Overtaken<S, E>(c: Config<S, E>, done: seq<Step<E>>, h: Holder<S, E>, b: seq<E>) returns (steps: seq<Step<E>>)
    requires Alone(After(c, done), h) && Replay(c.handlers, c.initial, b).Some?
    ensures After(c, steps).db.events == b && 0 in After(c, steps).holders && After(c, steps).holders[0] == h
    ensures After(c, steps).db.snapshot.Some? ==> After(c, steps).db.snapshot.value.version <= |b|
  {
    AfterStep(c, done, LoadFor(1));
    var loaded := done + [LoadFor(1)];
    assert After(c, loaded).holders == map[0 := h, 1 := Holder(0, c.initial, [])] by { hide After; }
    var raised := Raises(c, loaded, 1, Holder(0, c.initial, []), b);
    AfterStep(c, raised, SaveBy(1, true, NoFailure));
    steps := raised + [SaveBy(1, true, NoFailure)];
    hide After, Replay;
    assert [] + b == b;
  }

  /** A holder with the version of the stream and another state passes the gate. */
  lemma Overwrites<S, E>(c: Config<S, E>, done: seq<Step<E>>, h: Holder<S, E>, e: E) returns (steps: seq<Step<E>>)
    requires var s := After(c, done);
             0 in s.holders && s.holders[0] == h && h.pending == [] && h.version == |s.db.events| &&
             (s.db.snapshot.Some? ==> s.db.snapshot.value.version <= h.version)
    requires c.snapshots && c.handlers(h.state, e).Some?
    ensures After(c, steps).db == Db(After(c, done).db.events + [e], Some(Snapshot(h.version + 1, c.schemaVersion, c.jsonb(c.handlers(h.state, e).value))))
  {
    AfterStep(c, done, Raise(0, e));
    AfterStep(c, done + [Raise(0, e)], SaveBy(0, true, NoFailure));
    steps := done + [Raise(0, e)] + [SaveBy(0, true, NoFailure)];
    hide After;
    assert h.pending + [e] == [e];
  }

  /** A newest snapshot with another state than the stream's is what loading gives. */
  lemma SnapshotWins<S(!new), E(!new)>(c: Config<S, E>, same: Equivalence<S>, db: Db<S, E>, state: S)
    requires Respects(c, same) && c.snapshots && db.snapshot == Some(Snapshot(|db.events|, c.schemaVersion, c.jsonb(state)))
    requires !SameState(same, state, Replay(c.handlers, c.initial, db.events))
    ensures !Agrees(c, same, db)
  {
    var from := ReadState(c, db.snapshot.value);
    assert from.Some? && same(from.value, c.jsonb(state)) && same(c.jsonb(state), state);
    assert Load(c, db).value.state == from.value && same(state, from.value);
  }

  /** Meanwhile another holder saves the other history, and the spent one passes the
      gate and writes a snapshot that is not the state of the stream. */
  lemma {:induction false} Corrupts<S(!new), E(!new)>(c: Config<S, E>, same: Equivalence<S>, a: seq<E>, b: seq<E>, e: E) returns (steps: seq<Step<E>>)
    requires Respects(c, same) && c.snapshots && Differs(c, same, a, b, e)
    ensures !Agrees(c, same, After(c, steps).db)
  {
    assert (a + [e])[..|a|] == a;
    var spent := Spend(c, a, |b|);
    var x := Holder(|b|, Replay(c.handlers, c.initial, a).value, []);
    var saved := Overtaken(c, spent, x, b);
    steps := Overwrites(c, saved, x, e);
    hide After, Respects, Agrees, SameState;
    SnapshotWins(c, same, After(c, steps).db, Replay(c.handlers, c.initial, a + [e]).value);
  }

  /** Saving a spent aggregate is safe exactly where it cannot show: in every run,
      loading agrees with full replay, if and only if the repository takes no
      snapshots or no two histories can be confused. */
  lemma ReuseSafeIff<S(!new), E(!new)>(c: Config<S, E>, same: Equivalence<S>)
    requires Respects(c, same)
    ensures (forall steps :: Agrees(c, same, After(c, steps).db)) <==> !(c.snapshots && Confusable(c, same))
  {
    if !c.snapshots {
      forall steps ensures Agrees(c, same, After(c, steps).db) { var db := After(c, steps).db; assert db.events[0..] == db.events; }
    } else if Confusable(c, same) {
      var a, b, e :| Differs(c, same, a, b, e);
      var steps := Corrupts(c, same, a, b, e);
      assert !Agrees(c, same, After(c, steps).db);
    } else {
      forall steps ensures Agrees(c, same, After(c, steps).db) {
        LooseRun(c, same, steps);
        LoadAgrees(c, same, After(c, steps).db);
      }
    }
  }

  // ---------------------------------------------------------------------------
  // The repository object
  // ---------------------------------------------------------------------------

  class Repository<S, E> {
    const config: Config<S, E>
    /** Committed state of the aggregate's stream and snapshot. */
    var db: Db<S, E>

    constructor (config: Config<S, E>)
      ensures this.config == config && db == Db([], None)
    {
      this.config := config;
      db := Db([], None);
    }

    /** The stored events behind a version, with their versions. */
    static function HistoryFrom(events: seq<E>, from: nat): (r: seq<Recorded<E>>)
      ensures Payloads(r) == Tail(events, from)
      ensures r != [] ==> r[|r| - 1].aggregateVersion == |events|
    {
      var tail := Tail(events, from);
      seq(|tail|, i requires 0 <= i < |tail| => Recorded(tail[i], from + 1 + i))
    }

    method LoadAggregate(id: string) returns (agg: Option<AggregateRoot<S, E>>)
      ensures agg.None? <==> Load(config, db).None?
      ensures agg.Some? ==> fresh(agg.value) && agg.value.handlers == config.handlers
      ensures agg.Some? ==> var h := Load(config, db).value; agg.value.version == h.version && agg.value.state == h.state && agg.value.pending == h.pending
    {
      var baseVersion, state := 0, config.initial;
      if config.snapshots && db.snapshot.Some? {
        var read := ReadState(config, db.snapshot.value);
        if read.None? { return None; }
        baseVersion, state := db.snapshot.value.version, read.value;
      }
      var history := HistoryFrom(db.events, baseVersion);
      var root := new AggregateRoot(id, state, config.handlers);
      root.version := baseVersion;
      var ok := root.LoadFromHistory(history);
      if !ok { return None; }
      return Some(root);
    }

    /** save. A failure is thrown by the append, or by the inline projector or the
        snapshot store after the aggregate has been changed; the transaction then
        rolls back. */
    method SaveAggregate(agg: AggregateRoot<S, E>, force: bool, failure: Failure) returns (r: Saved<S, E>)
      requires agg.version >= 0
      modifies this, agg
      ensures agg.version >= 0
      ensures r == Save(config, old(db), Holder(old(agg.version), old(agg.state), old(agg.pending)), force)
      ensures (db, Holder(agg.version, agg.state, agg.pending)) ==
                Settled(config, old(db), Holder(old(agg.version), old(agg.state), old(agg.pending)), force, failure)
    {
      var events := agg.PullPendingEvents();
      if |events| == 0 { return Nothing; }
      if agg.version != |db.events| { return Rejected; }
      var next := agg.version + |events|;
      var snapshot := db.snapshot;
      if Due(config, next, force) {
        var new_ := Snapshot(next, config.schemaVersion, config.jsonb(agg.state));
        if snapshot.None? || snapshot.value.version <= next { snapshot := Some(new_); }
      }
      r := Committed(Db(db.events + events, snapshot), Holder(next, agg.state, []));
      if failure == InAppend { return; }
      agg.version := next;
      if failure == NoFailure { db := r.db; }
    }
  }
}
