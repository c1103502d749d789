/** The command bus: middleware composition, idempotency slots and the retry
    loops around the command transaction (packages/mediator/src/command-bus.ts,
    packages/mediator/src/middleware.ts, packages/mediator-postgres/src/pg-idempotency-store.ts). */
module CommandBus {
  import opened Wrappers
  import opened CanonicalJson
  import opened EventChain
  import opened EventStore

  // ---------------------------------------------------------------------------
  // composeMiddleware
  // ---------------------------------------------------------------------------

  /** One use of next() by a middleware, with or without a catch around it. */
  datatype Call = Call(catches: bool)

  /** A middleware as the calls it makes to next(), and whether it throws after them. */
  datatype Middleware = Middleware(calls: seq<Call>, throws: bool)

  /** One invocation of the composed chain, with its captured counter i. */
  class Dispatching {
    const middlewares: seq<Middleware>
    /** The handler at the end of the chain throws. */
    const handlerThrows: bool
    var i: int
    var terminalRuns: nat

    constructor (middlewares: seq<Middleware>, handlerThrows: bool)
      ensures this.middlewares == middlewares && this.handlerThrows == handlerThrows && i == -1 && terminalRuns == 0
    {
      this.middlewares, this.handlerThrows := middlewares, handlerThrows;
      i, terminalRuns := -1, 0;
    }

    /** The counter only grows, and the terminal has run exactly when the counter
        has passed every middleware. */
    ghost predicate Valid()
      reads this
    {
      -1 <= i <= |middlewares| && terminalRuns == if i == |middlewares| then 1 else 0
    }

    /** The middleware uses next() and lets every error of it through. */
    static predicate PassesOn(m: Middleware) { |m.calls| > 0 && forall n | 0 <= n < |m.calls| :: !m.calls[n].catches }

    /** The middleware uses next() once, lets its error through and throws none itself. */
    static predicate Transparent(m: Middleware) { m.calls == [Call(false)] && !m.throws }

    /** dispatch(idx). */
    method Dispatch(idx: nat) returns (threw: bool)
      requires Valid() && idx <= |middlewares|
      modifies this
      ensures Valid() && i >= old(i) && i >= idx
      ensures old(i) >= idx ==> threw && i == old(i)
      ensures old(i) < idx ==> forall n | idx <= n < |middlewares| && middlewares[n].calls == [] :: i <= n
      ensures old(i) < idx && !threw && (forall n | idx <= n < |middlewares| :: PassesOn(middlewares[n])) ==> i == |middlewares|
      ensures old(i) < idx && (forall n | idx <= n < |middlewares| :: Transparent(middlewares[n])) ==>
                i == |middlewares| && (threw <==> handlerThrows)
      ensures old(i) < idx < |middlewares| ==> Throws(middlewares[idx], threw)
      decreases |middlewares| - idx
    {
      if idx <= i { return true; }
      i := idx;
      if idx == |middlewares| {
        terminalRuns := terminalRuns + 1;
        return handlerThrows;
      }
      var m := middlewares[idx];
      for n := 0 to |m.calls|
        invariant Valid() && i >= idx && (n == 0 ==> i == idx) && (n > 0 ==> i > idx)
        invariant forall k | idx <= k < |middlewares| && middlewares[k].calls == [] :: i <= k
        invariant n > 0 && (forall k | idx <= k < |middlewares| :: PassesOn(middlewares[k])) ==> i == |middlewares|
        invariant n > 0 && (forall k | idx <= k < |middlewares| :: Transparent(middlewares[k])) ==> i == |middlewares| && !handlerThrows
        invariant forall k | 0 < k < n :: m.calls[k].catches
      {
        var inner := Dispatch(idx + 1);
        if inner && !m.calls[n].catches { return true; }
        assert PassesOn(m) ==> !m.calls[n].catches;
      }
      return m.throws;
    }

    /** What a middleware alone decides about an error: its own always gets out; the
        second next() of a middleware is an error, which gets out unless it catches
        that; and with every next() caught only its own gets out. */
    static predicate Throws(m: Middleware, threw: bool)
    {
      (m.throws ==> threw) &&
      ((exists n :: 0 < n < |m.calls| && !m.calls[n].catches) ==> threw) &&
      (!m.throws && (forall n | 0 <= n < |m.calls| :: m.calls[n].catches) ==> !threw)
    }

    /** The composed function. Whatever the middlewares do with next(), the
        terminal handler runs at most once per invocation. It does not run past a
        middleware that never calls next(), and a normal return of middlewares
        that pass everything on means that it has run. Through transparent
        middlewares the outcome is the handler's. */
    method Invoke() returns (threw: bool)
      requires i == -1 && terminalRuns == 0
      modifies this
      ensures terminalRuns <= 1
      ensures (exists n :: 0 <= n < |middlewares| && middlewares[n].calls == []) ==> terminalRuns == 0
      ensures !threw && (forall n | 0 <= n < |middlewares| :: PassesOn(middlewares[n])) ==> terminalRuns == 1
      ensures (forall n | 0 <= n < |middlewares| :: Transparent(middlewares[n])) ==> terminalRuns == 1 && (threw <==> handlerThrows)
      ensures middlewares != [] ==> Throws(middlewares[0], threw)
    {
      threw := Dispatch(0);
    }
  }

  // ---------------------------------------------------------------------------
  // The slot table and one command transaction
  // ---------------------------------------------------------------------------

  datatype SlotKey = SlotKey(tenantId: string, key: string)

  datatype Slot = InFlight | Done(result: Json) | StaleFailed

  /** Committed state: the idempotency slots and, in commit order, the handler
      runs whose effects are committed. */
  datatype BusDb = BusDb(slots: map<SlotKey, Slot>, effects: seq<SlotKey>)

  /** What one handler run does; a conflict is a ConcurrencyError of the store. */
  datatype HandlerOutcome = Returns(result: Json) | Throws | Conflicts

  /** A command transaction: its slot, whether the command type opts out of
      idempotency, what the handler would do, whether a user middleware swallows
      an error, whether the claim lost the race for a slot that came and went
      under it, which it reports as held, and whether an error is that of a failed
      SQL statement, after which the database takes a COMMIT for a ROLLBACK. */
  datatype Attempt = Attempt(key: SlotKey, optOut: bool, outcome: HandlerOutcome, swallows: bool, raced: bool, aborts: bool)

  datatype Response = Success(result: Json) | Busy | Failure(conflict: bool)

  /** result ?? null */
  function OrNullResult(r: Json): Json { if r == Undefined then Null else r }

  datatype Claim = Claimed | AlreadyDone(result: Json) | HeldByOther

  /** claim on the slot table. */
  function ClaimOf(slots: map<SlotKey, Slot>, k: SlotKey): Claim
  {
    if k !in slots || slots[k] == StaleFailed then Claimed
    else if slots[k].Done? then AlreadyDone(slots[k].result)
    else HeldByOther
  }

  /** One transaction of the bus; a thrown error rolls everything back. */
  function Transacted(jsonb: Jsonb, db: BusDb, a: Attempt): (BusDb, Response)
  {
    if a.optOut then
      if a.outcome.Returns? then (db.(effects := db.effects + [a.key]), Success(a.outcome.result))
      else if a.swallows then (if a.aborts then db else db.(effects := db.effects + [a.key]), Success(Undefined))
      else (db, Failure(a.outcome.Conflicts?))
    else
      match if a.raced then HeldByOther else ClaimOf(db.slots, a.key)
      case HeldByOther => (db, if a.swallows then Success(Undefined) else Busy)
      case AlreadyDone(r) => (db, Success(r))
      case Claimed =>
        if a.outcome.Returns? && jsonb(OrNullResult(a.outcome.result)).Some? then
          (BusDb(db.slots[a.key := Done(jsonb(OrNullResult(a.outcome.result)).value)], db.effects + [a.key]),
           Success(a.outcome.result))
        else if a.swallows then
          (if a.aborts then db else BusDb(db.slots[a.key := InFlight], db.effects + [a.key]), Success(Undefined))
        else (db, Failure(a.outcome.Conflicts?))
  }

  /** How often the effects of a key's handler are committed. */
  function Runs(db: BusDb, k: SlotKey): nat { multiset(db.effects)[k] }

  /** No slot is in flight, and a slot is done exactly when its handler has
      committed, once. */
  ghost predicate SlotsExact(db: BusDb)
  {
    forall k :: (k in db.slots && db.slots[k].Done? && Runs(db, k) == 1) ||
                ((k !in db.slots || db.slots[k] == StaleFailed) && Runs(db, k) == 0)
  }

  /** Done slots keep their results, and effects are only added. */
  ghost predicate Later(a: BusDb, b: BusDb)
  {
    a.effects <= b.effects && forall k | k in a.slots && a.slots[k].Done? :: k in b.slots && b.slots[k] == a.slots[k]
  }

  /** Deduplicated attempts keep the slots exact; a success leaves the slot done. */
  lemma {:induction false} TransactedExact(jsonb: Jsonb, db: BusDb, a: Attempt)
    requires SlotsExact(db) && !a.optOut && !a.swallows
    ensures var (after, response) := Transacted(jsonb, db, a);
            SlotsExact(after) && Later(db, after) &&
            (response == Busy <==> a.raced) && (response == Busy ==> after == db) &&
            (response.Success? ==> a.key in after.slots && after.slots[a.key].Done?) &&
            (response.Failure? ==> after == db)
  {
    var (after, response) := Transacted(jsonb, db, a);
    if after != db {
      assert after.effects[..|db.effects|] == db.effects;
      forall k ensures Runs(after, k) == Runs(db, k) + if k == a.key then 1 else 0 {
        assert multiset(after.effects) == multiset(db.effects) + multiset{a.key};
      }
    }
  }

  /** A command type that opts out: every send runs the handler, whatever the slots
      say, and commits if it returns; an error is passed on as what it is. */
  lemma OptedOut(jsonb: Jsonb, db: BusDb, a: Attempt)
    requires a.optOut && !a.swallows
    ensures var (after, response) := Transacted(jsonb, db, a);
            after.slots == db.slots &&
            match a.outcome
            case Returns(result) => response == Success(result) && after.effects == db.effects + [a.key]
            case Throws => response == Failure(false) && after == db
            case Conflicts => response == Failure(true) && after == db
  {
  }

  /** A repeated send: once a send was a success, the next one of the key does not run
      its handler; it returns what the slot has stored of the first result, which for
      a handler without a result is what it stores for null. */
  lemma SecondSend(jsonb: Jsonb, db: BusDb, a: Attempt, b: Attempt)
    requires ClaimOf(db.slots, a.key) == Claimed && a.outcome.Returns? && !a.optOut && !a.raced && Transacted(jsonb, db, a).1.Success? && !a.swallows
    requires b.key == a.key && !b.optOut && !b.raced
    ensures Transacted(jsonb, db, a).1 == Success(a.outcome.result)
    ensures var stored := jsonb(if a.outcome.result == Undefined then Null else a.outcome.result);
            var after := Transacted(jsonb, db, a).0;
            stored.Some? && Transacted(jsonb, after, b) == (after, Success(stored.value))
  {
  }

  /** A slot that is left in flight blocks its key: no send runs the handler, until the
      watchdog has marked the slot; the next send then runs it. Slots that are done
      are not touched. */
  lemma InFlightBlocks(jsonb: Jsonb, db: BusDb, k: SlotKey, a: Attempt, keys: set<SlotKey>)
    requires k in db.slots && db.slots[k] == InFlight && a.key == k && !a.optOut && !a.swallows
    ensures Transacted(jsonb, db, a) == (db, Busy)
    ensures Reset(db, keys).effects == db.effects && Reset(db, keys).slots.Keys == db.slots.Keys
    ensures forall x | x in db.slots && (x !in keys || db.slots[x] != InFlight) :: Reset(db, keys).slots[x] == db.slots[x]
    ensures k in keys && !a.raced && a.outcome.Returns? && jsonb(OrNullResult(a.outcome.result)).Some? ==>
              Transacted(jsonb, Reset(db, keys), a).1 == Success(a.outcome.result) &&
              Transacted(jsonb, Reset(db, keys), a).0.effects == db.effects + [k]
  {
  }

  /** A committed in-flight slot comes from exactly one thing: an outer middleware
      swallowed an error that code had thrown after the slot was claimed. The error
      of a failed statement commits nothing, although the send reports a success. */
  lemma InFlightCommitted(jsonb: Jsonb, db: BusDb, a: Attempt)
    requires SlotsExact(db)
    ensures (exists k :: k in Transacted(jsonb, db, a).0.slots && Transacted(jsonb, db, a).0.slots[k] == InFlight) <==>
              a.swallows && !a.aborts && !a.optOut && !a.raced && ClaimOf(db.slots, a.key) == Claimed &&
              !(a.outcome.Returns? && jsonb(OrNullResult(a.outcome.result)).Some?)
    ensures a.swallows && a.aborts && !(a.outcome.Returns? && (a.optOut || jsonb(OrNullResult(a.outcome.result)).Some?)) ==>
              Transacted(jsonb, db, a).0 == db && Transacted(jsonb, db, a).1.Success?
  {
    assert forall k | k in db.slots :: db.slots[k] != InFlight;
    var after := Transacted(jsonb, db, a).0;
    if a.key in after.slots && after.slots[a.key] == InFlight { }
  }

  // ---------------------------------------------------------------------------
  // Any sequence of transactions
  // ---------------------------------------------------------------------------

  /** What happens to the slot table: a transaction, or the watchdog marking old
      in-flight slots as failed. */
  datatype Event = Tried(attempt: Attempt) | ResetStaleInFlight(keys: set<SlotKey>)

  function Reset(db: BusDb, keys: set<SlotKey>): BusDb
  {
    db.(slots := map k | k in db.slots :: if k in keys && db.slots[k] == InFlight then StaleFailed else db.slots[k])
  }

  datatype Trace = Trace(db: BusDb, responses: seq<Option<Response>>)

  /** Transactions of any senders, retries included, in the order they end, with
      the watchdog's resets between them. */
  function Ran(jsonb: Jsonb, events: seq<Event>): (t: Trace)
    ensures |t.responses| == |events|
  {
    if events == [] then Trace(BusDb(map[], []), [])
    else
      var before := Ran(jsonb, events[..|events| - 1]);
      match events[|events| - 1]
      case Tried(a) =>
        var (db, response) := Transacted(jsonb, before.db, a);
        Trace(db, before.responses + [Some(response)])
      case ResetStaleInFlight(keys) => Trace(Reset(before.db, keys), before.responses + [None])
  }

  predicate Deduplicated(events: seq<Event>)
  {
    forall i | 0 <= i < |events| && events[i].Tried? :: !events[i].attempt.optOut && !events[i].attempt.swallows
  }

  /** A handler result as callers see it: void is null, and JSON content only. */
  function Seen(r: Json): Json { Normalise(OrNullResult(r)) }

  /** The handler returns nothing or JSON data. */
  predicate JsonOutcome(o: HandlerOutcome)
  {
    o.Returns? ==> Data(OrNullResult(o.result)) && Chainable(OrNullResult(o.result))
  }

  predicate JsonResults(events: seq<Event>)
  {
    forall i | 0 <= i < |events| && events[i].Tried? :: JsonOutcome(events[i].attempt.outcome)
  }

  predicate Succeeded(events: seq<Event>, t: Trace, i: nat)
    requires |t.responses| == |events|
  {
    i < |events| && events[i].Tried? && t.responses[i].Some? && t.responses[i].value.Success?
  }

  /** A success shows the content of its key's done slot. */
  ghost predicate ShowsSlot(db: BusDb, k: SlotKey, result: Json)
  {
    k in db.slots && db.slots[k].Done? && Seen(result) == Seen(db.slots[k].result)
  }

  lemma SuccessShowsSlot(jsonb: Jsonb, db: BusDb, a: Attempt)
    requires SlotsExact(db) && !a.optOut && !a.swallows && JsonOutcome(a.outcome) && Faithful(jsonb)
    ensures var (after, response) := Transacted(jsonb, db, a);
            response.Success? ==> ShowsSlot(after, a.key, response.result)
  {
    TransactedExact(jsonb, db, a);
    if a.outcome.Returns? && jsonb(OrNullResult(a.outcome.result)).Some? { StoredNormaliseResult(jsonb, a.outcome.result); }
    hide Seen;
  }

  lemma ShownLater(a: BusDb, b: BusDb, k: SlotKey, result: Json)
    requires ShowsSlot(a, k, result) && Later(a, b)
    ensures ShowsSlot(b, k, result)
  {
  }

  /** Where slots are exact none is in flight, and the watchdog finds nothing. */
  lemma NothingStale(db: BusDb, keys: set<SlotKey>)
    requires SlotsExact(db)
    ensures Reset(db, keys) == db
  {
    assert forall k | k in db.slots :: db.slots[k] != InFlight;
  }

  /** Every success of a key shows the content of that key's done slot. */
  lemma {:induction false} SuccessesMatchSlot(jsonb: Jsonb, events: seq<Event>)
    requires Deduplicated(events) && JsonResults(events) && Faithful(jsonb)
    ensures var t := Ran(jsonb, events);
            SlotsExact(t.db) &&
            forall i | 0 <= i < |events| && Succeeded(events, t, i) :: ShowsSlot(t.db, events[i].attempt.key, t.responses[i].value.result)
  {
    if events != [] {
      var n := |events| - 1;
      var before, t := Ran(jsonb, events[..n]), Ran(jsonb, events);
      SuccessesMatchSlot(jsonb, events[..n]);
      match events[n] {
        case Tried(a) =>
          TransactedExact(jsonb, before.db, a);
          SuccessShowsSlot(jsonb, before.db, a);
        case ResetStaleInFlight(keys) => NothingStale(before.db, keys);
      }
      hide SlotsExact, Transacted, ShowsSlot, Reset;
      forall i | 0 <= i < |events| && Succeeded(events, t, i)
        ensures ShowsSlot(t.db, events[i].attempt.key, t.responses[i].value.result)
      {
        if i < n {
          assert events[..n][i] == events[i] && Succeeded(events[..n], before, i);
          if events[n].Tried? { ShownLater(before.db, t.db, events[i].attempt.key, t.responses[i].value.result); }
        }
      }
    }
  }

  lemma StoredNormaliseResult(jsonb: Jsonb, r: Json)
    requires Faithful(jsonb) && Data(OrNullResult(r)) && Chainable(OrNullResult(r)) && jsonb(OrNullResult(r)).Some?
    ensures Seen(jsonb(OrNullResult(r)).value) == Seen(r)
  {
    StoredNormalise(OrNullResult(r), jsonb(OrNullResult(r)).value);
  }

  /** Bus deduplication: over any interleaving of transactions and watchdog resets,
      a key's handler commits at most once, exactly once if any send of it
      succeeded, no slot is left in flight, and all successful sends of a key return
      the same result up to the JSON round trip. */
  lemma {:induction false} BusDeduplicates(jsonb: Jsonb, events: seq<Event>, i: nat, j: nat)
    requires Deduplicated(events) && JsonResults(events) && Faithful(jsonb)
    requires i < |events| && j < |events| && events[i].Tried? && events[j].Tried? && events[i].attempt.key == events[j].attempt.key
    ensures var t := Ran(jsonb, events);
            var k := events[i].attempt.key;
            Runs(t.db, k) <= 1 && (Succeeded(events, t, i) ==> Runs(t.db, k) == 1) &&
            (forall x | x in t.db.slots :: t.db.slots[x] != InFlight) &&
            (Succeeded(events, t, i) && Succeeded(events, t, j) ==>
               Seen(t.responses[i].value.result) == Seen(t.responses[j].value.result))
  {
    SuccessesMatchSlot(jsonb, events);
  }

  // ---------------------------------------------------------------------------
  // The bus object
  // ---------------------------------------------------------------------------

  datatype SendResult = Sent(result: Json) | TimedOut | Rejected

  /** One transaction of a send: the committed state it met, and its answer. */
  datatype Try = Try(before: BusDb, response: Response)

  /** What the n-th transaction of a send meets: what the handler would do, and whether
      the claim loses the race for a slot that comes and goes under it. */
  datatype World = World(handler: nat -> HandlerOutcome, races: nat -> bool)

  function AttemptOf(k: SlotKey, w: World, n: nat): Attempt { Attempt(k, false, w.handler(n), false, w.races(n), false) }

  /** How a send is configured: conflicts are retried up to maxAttempts times in a row,
      and a held slot is waited for in steps of pollMs, waitMs in all. */
  datatype Patience = Patience(maxAttempts: nat, reject: bool, waitMs: nat, pollMs: nat)

  /** How often the slot was found held. */
  function Held(tries: seq<Try>): nat
  {
    if tries == [] then 0 else Held(tries[..|tries| - 1]) + if tries[|tries| - 1].response == Busy then 1 else 0
  }

  /** How many of the last transactions in a row have failed. */
  function Streak(tries: seq<Try>): nat
  {
    if tries == [] || !tries[|tries| - 1].response.Failure? then 0 else Streak(tries[..|tries| - 1]) + 1
  }

  /** Another transaction is due: none was tried yet, or the last one met a conflict
      with attempts left, or a held slot with time left. */
  predicate GoesOn(tries: seq<Try>, p: Patience)
  {
    tries == [] ||
    match tries[|tries| - 1].response
    case Success(_) => false
    case Failure(conflict) => conflict && Streak(tries) < p.maxAttempts
    case Busy => !p.reject && (Held(tries) - 1) * p.pollMs < p.waitMs
  }

  /** No transaction was tried that was not due. */
  predicate Course(tries: seq<Try>, p: Patience)
  {
    forall i | 0 <= i < |tries| :: GoesOn(tries[..i], p)
  }

  /** The n-th answer is that of the n-th run of the handler on the state it met. */
  predicate Answered(jsonb: Jsonb, k: SlotKey, w: World, tries: seq<Try>)
  {
    forall n | 0 <= n < |tries| :: tries[n].response == Transacted(jsonb, tries[n].before, AttemptOf(k, w, n)).1
  }

  /** What the caller gets for the last answer. */
  predicate Outcome(last: Response, r: SendResult)
  {
    match last
    case Success(result) => r == Sent(result)
    case Busy => r == TimedOut
    case Failure(_) => r == Rejected
  }

  lemma OneMoreTry(tries: seq<Try>, t: Try, p: Patience)
    ensures Held(tries + [t]) == Held(tries) + if t.response == Busy then 1 else 0
    ensures Streak(tries + [t]) == if t.response.Failure? then Streak(tries) + 1 else 0
    ensures Course(tries, p) && GoesOn(tries, p) ==> Course(tries + [t], p)
  {
    var all := tries + [t];
    assert all[..|tries|] == tries;
    hide GoesOn;
    if Course(tries, p) && GoesOn(tries, p) {
      forall i | 0 <= i < |all| ensures GoesOn(all[..i], p) { if i < |tries| { assert all[..i] == tries[..i]; } }
    }
  }

  lemma {:induction false} StreakFailed(tries: seq<Try>, i: nat)
    requires |tries| - Streak(tries) <= i < |tries|
    ensures tries[i].response.Failure?
  {
    if i < |tries| - 1 { StreakFailed(tries[..|tries| - 1], i); }
  }

  lemma {:induction false} StreakFits(tries: seq<Try>)
    ensures Streak(tries) <= |tries|
  {
    if tries != [] { StreakFits(tries[..|tries| - 1]); }
  }

  /** Why a send is rejected: the handler's last error was not a conflict, or it met a
      conflict in each of the last maxAttempts transactions. */
  lemma RejectedWhy(jsonb: Jsonb, k: SlotKey, w: World, tries: seq<Try>, p: Patience)
    requires Answered(jsonb, k, w, tries) && Course(tries, p) && !GoesOn(tries, p) && tries[|tries| - 1].response.Failure?
    ensures var n := |tries|;
            !w.handler(n - 1).Conflicts? || (n >= p.maxAttempts && forall i | n - p.maxAttempts <= i < n :: w.handler(i).Conflicts?)
  {
    var n := |tries|;
    StreakFits(tries);
    if w.handler(n - 1).Conflicts? {
      forall i | n - p.maxAttempts <= i < n ensures w.handler(i).Conflicts? {
        StreakFailed(tries, i);
        if i < n - 1 { assert GoesOn(tries[..i + 1], p); }
      }
    }
  }

  class CommandBus {
    const jsonb: Jsonb
    /** Committed state, shared with every other sender. */
    var db: BusDb
    /** How many handler runs transactions of this object have committed. */
    ghost var own: nat

    constructor (jsonb: Jsonb)
      ensures this.jsonb == jsonb && db == BusDb(map[], []) && own == 0
    {
      this.jsonb := jsonb;
      db, own := BusDb(map[], []), 0;
    }

    /** Transactions of other senders commit. Callers may rely on no more than the
        contract. */
    method Interference()
      requires SlotsExact(db)
      modifies this
      ensures SlotsExact(db) && Later(old(db), db) && own == old(own)
    {
    }

    /** One transaction: claim, handler, complete, then commit or roll back. */
    method Transaction(k: SlotKey, outcome: HandlerOutcome, raced: bool) returns (response: Response)
      modifies this
      ensures (db, response) == Transacted(jsonb, old(db), Attempt(k, false, outcome, false, raced, false))
      ensures own == old(own) + |db.effects| - |old(db).effects|
    {
      var working := db;
      var claim := if raced then HeldByOther else ClaimOf(working.slots, k);
      if claim.HeldByOther? { return Busy; }
      if claim.AlreadyDone? { return Success(claim.result); }
      working := working.(slots := working.slots[k := InFlight]);
      if !outcome.Returns? { return Failure(outcome.Conflicts?); }
      working := working.(effects := working.effects + [k]);
      var stored := jsonb(OrNullResult(outcome.result));
      if stored.None? { return Failure(false); }
      working := working.(slots := working.slots[k := Done(stored.value)]);
      assert working.slots == db.slots[k := Done(stored.value)];
      db, own := working, own + 1;
      return Success(outcome.result);
    }

    /** One transaction of a send, on whatever others have committed by then. */
    method TryOnce(k: SlotKey, outcome: HandlerOutcome, raced: bool) returns (response: Response, ghost t: Try)
      requires SlotsExact(db)
      modifies this
      ensures SlotsExact(db) && SlotsExact(t.before) && Later(old(db), t.before) && Later(t.before, db) && Later(old(db), db)
      ensures response == t.response == Transacted(jsonb, t.before, Attempt(k, false, outcome, false, raced, false)).1
      ensures old(own) <= own <= old(own) + 1 && (!response.Success? ==> db == t.before && own == old(own))
      ensures response.Success? ==> k in db.slots && db.slots[k].Done? && Runs(db, k) == 1
      ensures response.Success? && Faithful(jsonb) && JsonOutcome(outcome) ==> ShowsSlot(db, k, response.result)
      ensures response.Success? && k in old(db.slots) && old(db.slots)[k].Done? ==> response.result == old(db.slots)[k].result
    {
      hide Transacted, Seen, JsonOutcome, Runs;
      Interference();
      ghost var before, a := db, Attempt(k, false, outcome, false, raced, false);
      TransactedExact(jsonb, db, a);
      AlreadyThere(jsonb, db, a);
      if Faithful(jsonb) && JsonOutcome(outcome) { SuccessShowsSlot(jsonb, db, a); }
      response := Transaction(k, outcome, raced);
      t := Try(before, response);
    }

    /** send: whole-transaction retries after conflicts, inside a wait loop while
        another worker holds the slot. The call tries transactions exactly as long as they are due and
        answers with the last one. A normal return means the command's effects are
        committed exactly once, by this call or an earlier one, and gives the stored
        result; an error means no transaction of this call has committed anything. */
    method Send(k: SlotKey, w: World, p: Patience) returns (r: SendResult, ghost before: BusDb, ghost tries: seq<Try>)
      requires SlotsExact(db) && p.maxAttempts > 0 && p.pollMs > 0
      modifies this
      ensures SlotsExact(db) && Later(old(db), before) && Later(before, db) && SlotsExact(before)
      ensures Answered(jsonb, k, w, tries) && Course(tries, p) && !GoesOn(tries, p)
      ensures tries != [] && tries[|tries| - 1].before == before && Outcome(tries[|tries| - 1].response, r)
      ensures r.Rejected? ==> var n := |tries|;
                !w.handler(n - 1).Conflicts? || (n >= p.maxAttempts && forall i | n - p.maxAttempts <= i < n :: w.handler(i).Conflicts?)
      ensures r.TimedOut? ==> tries[|tries| - 1].response == Busy && (p.reject || (Held(tries) - 1) * p.pollMs >= p.waitMs)
      ensures r.Sent? ==> k in db.slots && db.slots[k].Done? && Runs(db, k) == 1
      ensures r.Sent? && Faithful(jsonb) && (forall n :: JsonOutcome(w.handler(n))) ==> ShowsSlot(db, k, r.result)
      ensures r.Sent? && k in old(db.slots) && old(db.slots)[k].Done? ==> r.result == old(db.slots)[k].result
      ensures old(own) <= own <= old(own) + 1
      ensures !r.Sent? ==> db == before && own == old(own)
    {
      hide Transacted, ShowsSlot, JsonOutcome, Runs, Course, Held, Streak, SlotsExact, Faithful, Answered, Later;
      NoAnswers(jsonb, k, w);
      LaterStill(db, db, db);
      tries := [];
      NothingTried(p);
      var elapsed, n := 0, 0;
      while true
        invariant SlotsExact(db) && Later(old(db), db) && own == old(own)
        invariant n == |tries| && Answered(jsonb, k, w, tries) && Course(tries, p) && GoesOn(tries, p)
        invariant Streak(tries) == 0 && elapsed == Held(tries) * p.pollMs
        decreases p.waitMs - elapsed
      {
        var attempt := 0;
        var busy := false;
        while !busy
          invariant SlotsExact(db) && Later(old(db), db) && own == old(own) && 0 <= attempt < p.maxAttempts
          invariant n == |tries| && Answered(jsonb, k, w, tries) && Course(tries, p) && (!busy ==> GoesOn(tries, p) && attempt == Streak(tries))
          invariant elapsed == (Held(tries) - if busy then 1 else 0) * p.pollMs
          invariant busy ==> n > 0 && tries[n - 1].response == Busy && tries[n - 1].before == db && Streak(tries) == 0
          decreases p.maxAttempts - attempt, !busy
        {
          ghost var t, last := Try(db, Busy), db;
          var response;
          response, t := TryOnce(k, w.handler(n), w.races(n));
          before := t.before;
          OneMoreTry(tries, t, p);
          AnsweredNext(jsonb, k, w, tries, t);
          LaterStill(old(db), last, db);
          LaterStill(old(db), last, before);
          tries, n := tries + [t], n + 1;
          match response
          case Success(result) => return Sent(result), before, tries;
          case Busy => busy := true;
          case Failure(conflict) =>
            attempt := attempt + 1;
            if attempt >= p.maxAttempts || !conflict {
              RejectedWhy(jsonb, k, w, tries, p);
              return Rejected, before, tries;
            }
        }
        LaterStill(db, db, db);
        if p.reject || elapsed >= p.waitMs { return TimedOut, db, tries; }
        OneMorePoll(Held(tries), p.pollMs);
        elapsed := elapsed + p.pollMs;
      }
    }
  }

  lemma NoAnswers(jsonb: Jsonb, k: SlotKey, w: World)
    ensures Answered(jsonb, k, w, [])
  {
  }

  lemma AnsweredNext(jsonb: Jsonb, k: SlotKey, w: World, tries: seq<Try>, t: Try)
    requires Answered(jsonb, k, w, tries)
    requires t.response == Transacted(jsonb, t.before, Attempt(k, false, w.handler(|tries|), false, w.races(|tries|), false)).1
    ensures Answered(jsonb, k, w, tries + [t])
  {
    hide Transacted;
  }

  lemma LaterStill(a: BusDb, b: BusDb, c: BusDb)
    ensures Later(a, a) && (Later(a, b) && Later(b, c) ==> Later(a, c))
    ensures Later(a, b) ==> forall k | k in a.slots && a.slots[k].Done? :: k in b.slots && b.slots[k] == a.slots[k]
  {
  }

  lemma NothingTried(p: Patience)
    ensures Held([]) == 0 && Streak([]) == 0 && Course([], p)
  {
  }

  lemma OneMorePoll(n: int, pollMs: nat)
    ensures (n - 1) * pollMs + pollMs == n * pollMs
  {
  }

  /** A transaction adds at most one handler run, and answers from a done slot. */
  lemma AlreadyThere(jsonb: Jsonb, db: BusDb, a: Attempt)
    requires SlotsExact(db) && !a.optOut && !a.swallows
    ensures var (after, response) := Transacted(jsonb, db, a);
            |db.effects| <= |after.effects| <= |db.effects| + 1 &&
            (response.Success? ==> Runs(after, a.key) == 1) &&
            (response.Success? && a.key in db.slots && db.slots[a.key].Done? ==> response.result == db.slots[a.key].result)
  {
    TransactedExact(jsonb, db, a);
  }
}
