/** Event-sourced aggregates: replay, raise and pending events
    (packages/core/src/aggregates/aggregate-root.ts). */
module Aggregates {
  import opened Wrappers

  /** An event with the version it has in its stream. */
  datatype Recorded<E> = Recorded(payload: E, aggregateVersion: int)

  /** The handler map: the new state, or None for an event type without a handler. */
  type Handlers<!S, !E> = (S, E) -> Option<S>

  /** The state after events; None when one of them has no handler. */
  function Replay<S, E>(handlers: Handlers<S, E>, s: S, events: seq<E>): Option<S>
  {
    if events == [] then Some(s)
    else
      var before := Replay(handlers, s, events[..|events| - 1]);
      if before.None? then None else handlers(before.value, events[|events| - 1])
  }

  lemma {:induction false} ReplayConcat<S, E>(handlers: Handlers<S, E>, s: S, a: seq<E>, b: seq<E>)
    ensures Replay(handlers, s, a + b) ==
              if Replay(handlers, s, a).None? then None else Replay(handlers, Replay(handlers, s, a).value, b)
  {
    if b == [] {
      assert a + b == a;
    } else {
      var n := |b| - 1;
      assert (a + b)[..|a| + n] == a + b[..n];
      ReplayConcat(handlers, s, a, b[..n]);
    }
  }

  function Payloads<E>(history: seq<Recorded<E>>): (r: seq<E>)
    ensures |r| == |history| && forall i | 0 <= i < |r| :: r[i] == history[i].payload
  {
    seq(|history|, i requires 0 <= i < |history| => history[i].payload)
  }

  class AggregateRoot<S, E> {
    const id: string
    const handlers: Handlers<S, E>
    var version: int
    var state: S
    var pending: seq<E>

    constructor (id: string, initial: S, handlers: Handlers<S, E>)
      ensures this.id == id && this.handlers == handlers && version == 0 && state == initial && pending == []
    {
      this.id, this.handlers := id, handlers;
      version, state, pending := 0, initial, [];
    }

    /** The first n events of a history have been applied, and the next has no handler. */
    ghost predicate StuckAt(n: nat, before: S, start: int, history: seq<Recorded<E>>)
      reads this
    {
      n < |history| && Replay(handlers, before, Payloads(history[..n])) == Some(state) && handlers(state, history[n].payload).None? &&
      version == if n == 0 then start else history[n - 1].aggregateVersion
    }

    /** loadFromHistory: the state becomes the replay of the history, and the
        version that of its last event. An event without a handler is an error, which
        leaves what was applied before it. */
    method LoadFromHistory(history: seq<Recorded<E>>) returns (ok: bool)
      modifies this`version, this`state
      ensures ok <==> Replay(handlers, old(state), Payloads(history)).Some?
      ensures ok ==> Replay(handlers, old(state), Payloads(history)) == Some(state)
      ensures ok ==> version == if history == [] then old(version) else history[|history| - 1].aggregateVersion
      ensures !ok ==> exists n :: 0 <= n < |history| && StuckAt(n, old(state), old(version), history)
    {
      var i := 0;
      while i < |history|
        invariant 0 <= i <= |history| && Replay(handlers, old(state), Payloads(history[..i])) == Some(state)
        invariant version == if i == 0 then old(version) else history[i - 1].aggregateVersion
      {
        assert Payloads(history[..i + 1])[..i] == Payloads(history[..i]);
        var next := handlers(state, history[i].payload);
        if next.None? {
          assert Payloads(history)[..i + 1] == Payloads(history[..i + 1]);
          FailureStays(handlers, old(state), Payloads(history), i + 1);
          assert StuckAt(i, old(state), old(version), history);
          return false;
        }
        state, version := next.value, history[i].aggregateVersion;
        i := i + 1;
      }
      assert history[..i] == history;
      return true;
    }

    /** raise: every event changes the state and becomes pending, up to the first
        one without a handler. */
    method Raise(events: seq<E>) returns (applied: nat)
      modifies this`state, this`pending
      ensures applied <= |events|
      ensures Replay(handlers, old(state), events[..applied]) == Some(state)
      ensures pending == old(pending) + events[..applied]
      ensures applied < |events| ==> handlers(state, events[applied]).None?
    {
      applied := 0;
      while applied < |events|
        invariant applied <= |events| && Replay(handlers, old(state), events[..applied]) == Some(state)
        invariant pending == old(pending) + events[..applied]
      {
        assert events[..applied + 1][..applied] == events[..applied];
        var next := handlers(state, events[applied]);
        if next.None? { return; }
        state, pending := next.value, pending + [events[applied]];
        applied := applied + 1;
      }
    }

    /** pullPendingEvents: hands the pending events over once. */
    method PullPendingEvents() returns (out: seq<E>)
      modifies this`pending
      ensures out == old(pending) && pending == []
    {
      out, pending := pending, [];
    }
  }

  lemma {:induction false} FailureStays<S, E>(handlers: Handlers<S, E>, s: S, events: seq<E>, n: nat)
    requires n <= |events| && Replay(handlers, s, events[..n]).None?
    ensures Replay(handlers, s, events).None?
  {
    ReplayConcat(handlers, s, events[..n], events[n..]);
    assert events[..n] + events[n..] == events;
  }
}
