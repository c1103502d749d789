/** The catch-up projector over one event log shared by many tenants
    (packages/core/src/projections/catch-up-projector.ts,
    packages/postgres/src/pg-event-store.ts:487-550,
    packages/postgres/src/projections/pg-projection-checkpoint-store.ts). */
module CatchUp {
  import opened Wrappers

  /** An event of the log; its global position is its index plus one. */
  datatype Envelope<E> = Envelope(tenantId: string, payload: E, dismissed: bool)

  /** An event as it is read. */
  datatype Row<E> = Row(position: nat, payload: E, dismissed: bool)

  /** A projection: its handler on a read model, None being an error. */
  type Handler<!M, !E> = (M, E) -> Option<M>

  /** A projection's checkpoint and read model for one tenant, and, for the
      statements, the rows it has handled. */
  datatype Progress<M, E> = Progress(cp: nat, model: M, handled: seq<Row<E>>)

  // ---------------------------------------------------------------------------
  // One batch of one tenant
  // ---------------------------------------------------------------------------

  /** The tenant's rows after a position, in order. */
  function Rows<E>(log: seq<Envelope<E>>, tenant: string, from: nat): seq<Row<E>>
    requires from <= |log|
    decreases |log| - from
  {
    if from == |log| then []
    else
      (if log[from].tenantId == tenant then [Row(from + 1, log[from].payload, log[from].dismissed)] else []) +
      Rows(log, tenant, from + 1)
  }

  predicate Live<E>(r: Row<E>, dismissedToo: bool) { dismissedToo || !r.dismissed }

  /** envs.filter(e => !e.dismissed), after the LIMIT has been applied. */
  function Kept<E>(rows: seq<Row<E>>, dismissedToo: bool): seq<Row<E>>
  {
    if rows == [] then []
    else (if Live(rows[0], dismissedToo) then [rows[0]] else []) + Kept(rows[1..], dismissedToo)
  }

  function Take<E>(rows: seq<Row<E>>, limit: nat): seq<Row<E>> { if limit <= |rows| then rows[..limit] else rows }

  /** The handler run over rows; None when it fails on one of them. */
  function Fold<M, E>(handler: Handler<M, E>, model: M, rows: seq<Row<E>>): Option<M>
  {
    if rows == [] then Some(model)
    else
      var before := Fold(handler, model, rows[..|rows| - 1]);
      if before.None? then None else handler(before.value, rows[|rows| - 1].payload)
  }

  datatype Outcome<M, E> = Idle | Failed | Worked(progress: Progress<M, E>)

  /** processTenantBatch on the tenant's rows after its checkpoint: load a page,
      handle it, move the checkpoint to its last event. A failure rolls back. */
  function Batch<M, E>(handler: Handler<M, E>, s: Progress<M, E>, rows: seq<Row<E>>, limit: nat, dismissedToo: bool): Outcome<M, E>
  {
    var page := Kept(Take(rows, limit), dismissedToo);
    if page == [] then Idle
    else
      var model := Fold(handler, s.model, page);
      if model.None? then Failed
      else Worked(Progress(page[|page| - 1].position, model.value, s.handled + page))
  }

  // ---------------------------------------------------------------------------
  // Rows and pages
  // ---------------------------------------------------------------------------

  predicate Increasing<E>(rows: seq<Row<E>>) { forall i, j | 0 <= i < j < |rows| :: rows[i].position < rows[j].position }

  /** The rows are the tenant's events between two positions, as they are in the log. */
  ghost predicate Of<E>(log: seq<Envelope<E>>, tenant: string, lo: nat, hi: nat, rows: seq<Row<E>>)
  {
    forall i | 0 <= i < |rows| :: lo < rows[i].position <= hi && At(log, tenant, rows[i])
  }

  ghost predicate At<E>(log: seq<Envelope<E>>, tenant: string, r: Row<E>)
  {
    1 <= r.position <= |log| && log[r.position - 1].tenantId == tenant && log[r.position - 1].payload == r.payload
  }

  ghost predicate Has<E>(rows: seq<Row<E>>, p: nat) { exists i :: 0 <= i < |rows| && rows[i].position == p }

  /** Every event of the tenant in a range that is not dismissed is among the rows. */
  ghost predicate AllLive<E>(log: seq<Envelope<E>>, tenant: string, lo: nat, hi: nat, rows: seq<Row<E>>)
  {
    forall p | lo < p <= hi && p <= |log| && log[p - 1].tenantId == tenant && !log[p - 1].dismissed :: Has(rows, p)
  }

  lemma Prepended<E>(r: Row<E>, rows: seq<Row<E>>, p: nat)
    requires Has(rows, p)
    ensures Has([r] + rows, p)
  {
    var i :| 0 <= i < |rows| && rows[i].position == p;
    assert ([r] + rows)[i + 1] == rows[i];
  }

  lemma RowsUnfold<E>(log: seq<Envelope<E>>, tenant: string, from: nat)
    requires from < |log|
    ensures var r := Row(from + 1, log[from].payload, log[from].dismissed);
            (log[from].tenantId == tenant ==> At(log, tenant, r) && Rows(log, tenant, from) == [r] + Rows(log, tenant, from + 1)) &&
            (log[from].tenantId != tenant ==> Rows(log, tenant, from) == Rows(log, tenant, from + 1))
  {
  }

  lemma InOrderAfter<E>(log: seq<Envelope<E>>, tenant: string, lo: nat, hi: nat, r: Row<E>, rest: seq<Row<E>>)
    requires lo < r.position <= hi && At(log, tenant, r) && Of(log, tenant, r.position, hi, rest) && Increasing(rest)
    ensures Of(log, tenant, lo, hi, [r] + rest) && Increasing([r] + rest)
  {
    hide At;
    var rows := [r] + rest;
    forall i | 0 <= i < |rows| ensures lo < rows[i].position <= hi && At(log, tenant, rows[i]) {
      if i > 0 { assert rows[i] == rest[i - 1]; }
    }
    forall i, j | 0 <= i < j < |rows| ensures rows[i].position < rows[j].position {
      assert rows[j] == rest[j - 1];
      if i > 0 { assert rows[i] == rest[i - 1]; }
    }
  }

  lemma OfWider<E>(log: seq<Envelope<E>>, tenant: string, lo: nat, from: nat, hi: nat, rows: seq<Row<E>>)
    requires Of(log, tenant, from, hi, rows) && lo <= from
    ensures Of(log, tenant, lo, hi, rows)
  {
  }

  lemma {:induction false} RowsInOrder<E>(log: seq<Envelope<E>>, tenant: string, from: nat)
    requires from <= |log|
    ensures Of(log, tenant, from, |log|, Rows(log, tenant, from)) && Increasing(Rows(log, tenant, from))
    decreases |log| - from
  {
    if from < |log| {
      RowsInOrder(log, tenant, from + 1);
      RowsUnfold(log, tenant, from);
      hide Rows, At, Of, Increasing;
      if log[from].tenantId == tenant {
        InOrderAfter(log, tenant, from, |log|, Row(from + 1, log[from].payload, log[from].dismissed), Rows(log, tenant, from + 1));
      } else {
        OfWider(log, tenant, from, from + 1, |log|, Rows(log, tenant, from + 1));
      }
    }
  }

  lemma {:induction false} RowsComplete<E>(log: seq<Envelope<E>>, tenant: string, from: nat, p: nat)
    requires from < p <= |log| && log[p - 1].tenantId == tenant
    ensures Has(Rows(log, tenant, from), p)
    decreases |log| - from
  {
    var r := Row(from + 1, log[from].payload, log[from].dismissed);
    RowsUnfold(log, tenant, from);
    hide Rows, At, Has;
    if p == from + 1 {
      HasFirst(r, Rows(log, tenant, from + 1));
    } else {
      RowsComplete(log, tenant, from + 1, p);
      Prepended(r, Rows(log, tenant, from + 1), p);
    }
  }

  lemma HasFirst<E>(r: Row<E>, rows: seq<Row<E>>)
    ensures Has([r] + rows, r.position)
  {
    assert ([r] + rows)[0] == r;
  }

  lemma RowsOf<E>(log: seq<Envelope<E>>, tenant: string, from: nat)
    requires from <= |log|
    ensures var rows := Rows(log, tenant, from);
            Of(log, tenant, from, |log|, rows) && Increasing(rows) && AllLive(log, tenant, from, |log|, rows)
  {
    RowsInOrder(log, tenant, from);
    hide Rows, Has, At;
    forall p | from < p <= |log| && log[p - 1].tenantId == tenant && !log[p - 1].dismissed ensures Has(Rows(log, tenant, from), p) {
      RowsComplete(log, tenant, from, p);
    }
  }

  lemma {:induction false} RowsFresh<E>(log: seq<Envelope<E>>, tenant: string, from: nat)
    requires from <= |log|
    ensures forall i | 0 <= i < |Rows(log, tenant, from)| && 1 <= Rows(log, tenant, from)[i].position <= |log| ::
              Rows(log, tenant, from)[i].dismissed == log[Rows(log, tenant, from)[i].position - 1].dismissed
    decreases |log| - from
  {
    if from < |log| { RowsFresh(log, tenant, from + 1); }
  }

  /** Reading on from a row gives the rows behind it. */
  lemma {:induction false} RowsAfter<E>(log: seq<Envelope<E>>, tenant: string, from: nat, j: nat)
    requires from <= |log| && j < |Rows(log, tenant, from)|
    ensures from < Rows(log, tenant, from)[j].position <= |log|
    ensures Rows(log, tenant, Rows(log, tenant, from)[j].position) == Rows(log, tenant, from)[j + 1..]
    decreases |log| - from
  {
    if log[from].tenantId == tenant {
      if j > 0 { RowsAfter(log, tenant, from + 1, j - 1); }
    } else {
      RowsAfter(log, tenant, from + 1, j);
    }
  }

  /** The index, in a list of rows, of its last row that is kept. */
  lemma {:induction false} LastKept<E>(rows: seq<Row<E>>, dismissedToo: bool) returns (m: nat)
    requires Kept(rows, dismissedToo) != []
    ensures m < |rows| && Live(rows[m], dismissedToo)
    ensures Kept(rows, dismissedToo)[|Kept(rows, dismissedToo)| - 1] == rows[m]
    ensures Kept(rows[..m + 1], dismissedToo) == Kept(rows, dismissedToo)
  {
    var rest := rows[1..];
    if Kept(rest, dismissedToo) == [] {
      m := 0;
      assert rows[..1][1..] == [] && rows[..1][0] == rows[0];
    } else {
      var k := LastKept(rest, dismissedToo);
      m := k + 1;
      assert rows[..m + 1][1..] == rest[..k + 1] && rows[..m + 1][0] == rows[0];
    }
  }

  /** Nothing is kept exactly when every row is dismissed. */
  lemma {:induction false} KeptNothing<E>(rows: seq<Row<E>>, dismissedToo: bool)
    ensures Kept(rows, dismissedToo) == [] <==> !LiveFrom(rows, 0, dismissedToo)
  {
    if rows != [] {
      KeptNothing(rows[1..], dismissedToo);
      LiveTail(rows, dismissedToo);
    }
  }

  lemma LiveTail<E>(rows: seq<Row<E>>, dismissedToo: bool)
    requires rows != []
    ensures LiveFrom(rows, 0, dismissedToo) <==> Live(rows[0], dismissedToo) || LiveFrom(rows[1..], 0, dismissedToo)
  {
    if LiveFrom(rows[1..], 0, dismissedToo) {
      var j :| 0 <= j < |rows[1..]| && Live(rows[1..][j], dismissedToo);
      assert rows[j + 1] == rows[1..][j];
    }
    if LiveFrom(rows, 0, dismissedToo) && !Live(rows[0], dismissedToo) {
      var j :| 0 <= j < |rows| && Live(rows[j], dismissedToo);
      assert rows[1..][j - 1] == rows[j];
    }
  }

  lemma TailInOrder<E>(log: seq<Envelope<E>>, tenant: string, lo: nat, hi: nat, rows: seq<Row<E>>)
    requires Of(log, tenant, lo, hi, rows) && Increasing(rows) && rows != []
    ensures lo < rows[0].position <= hi && At(log, tenant, rows[0])
    ensures Of(log, tenant, rows[0].position, hi, rows[1..]) && Increasing(rows[1..])
  {
    hide At;
    assert forall i | 0 <= i < |rows| - 1 :: rows[1..][i] == rows[i + 1];
  }

  /** What is kept of a list of rows is of it, in order. */
  lemma {:induction false} KeptOf<E>(log: seq<Envelope<E>>, tenant: string, lo: nat, hi: nat, rows: seq<Row<E>>, dismissedToo: bool)
    requires Of(log, tenant, lo, hi, rows) && Increasing(rows)
    ensures Of(log, tenant, lo, hi, Kept(rows, dismissedToo)) && Increasing(Kept(rows, dismissedToo))
    decreases |rows|
  {
    if rows != [] {
      var rest := rows[1..];
      TailInOrder(log, tenant, lo, hi, rows);
      hide At, Of, Increasing;
      KeptOf(log, tenant, rows[0].position, hi, rest, dismissedToo);
      if Live(rows[0], dismissedToo) {
        InOrderAfter(log, tenant, lo, hi, rows[0], Kept(rest, dismissedToo));
      } else {
        OfWider(log, tenant, lo, rows[0].position, hi, Kept(rest, dismissedToo));
      }
    }
  }

  /** Only dismissed rows are left out. */
  lemma {:induction false} KeptHas<E>(rows: seq<Row<E>>, dismissedToo: bool, i: nat)
    requires i < |rows| && !rows[i].dismissed
    ensures Has(Kept(rows, dismissedToo), rows[i].position)
    decreases |rows|
  {
    var rest := Kept(rows[1..], dismissedToo);
    assert Kept(rows, dismissedToo) == if Live(rows[0], dismissedToo) then [rows[0]] + rest else rest;
    if i == 0 {
      HasFirst(rows[0], rest);
    } else {
      KeptHas(rows[1..], dismissedToo, i - 1);
      Prepended(rows[0], rest, rows[i].position);
    }
  }

  lemma HeadOf<E>(log: seq<Envelope<E>>, tenant: string, lo: nat, rows: seq<Row<E>>, m: nat)
    requires Of(log, tenant, lo, |log|, rows) && Increasing(rows) && m < |rows|
    ensures lo < rows[m].position <= |log| && Of(log, tenant, lo, rows[m].position, rows[..m + 1]) && Increasing(rows[..m + 1])
  {
    hide At;
    assert forall i | 0 <= i <= m :: rows[..m + 1][i] == rows[i];
  }

  /** The rows up to one of them hold the tenant's live events up to there. */
  lemma HeadLive<E>(log: seq<Envelope<E>>, tenant: string, lo: nat, rows: seq<Row<E>>, m: nat, p: nat) returns (i: nat)
    requires Increasing(rows) && AllLive(log, tenant, lo, |log|, rows) && m < |rows|
    requires lo < p <= rows[m].position && p <= |log| && log[p - 1].tenantId == tenant && !log[p - 1].dismissed
    ensures i <= m && rows[i].position == p
  {
    assert Has(rows, p);
    i :| 0 <= i < |rows| && rows[i].position == p;
  }

  /** The row at some index from i on would be kept. */
  predicate LiveFrom<E>(rows: seq<Row<E>>, i: nat, dismissedToo: bool)
  {
    exists j :: i <= j < |rows| && Live(rows[j], dismissedToo)
  }

  /** A batch moves the checkpoint, inside the log, to the last row it kept. */
  lemma BatchMoves<M, E>(handler: Handler<M, E>, log: seq<Envelope<E>>, tenant: string, s: Progress<M, E>, limit: nat, dismissedToo: bool)
    requires s.cp <= |log|
    ensures var r := Batch(handler, s, Rows(log, tenant, s.cp), limit, dismissedToo); r.Worked? ==> s.cp < r.progress.cp <= |log|
  {
    var rows := Rows(log, tenant, s.cp);
    if Kept(Take(rows, limit), dismissedToo) != [] {
      var m := LastKept(Take(rows, limit), dismissedToo);
      RowsAfter(log, tenant, s.cp, m);
    }
  }

  /** processTenantBatch on the log. */
  function TenantBatch<M, E>(handler: Handler<M, E>, log: seq<Envelope<E>>, tenant: string, s: Progress<M, E>, limit: nat, dismissedToo: bool): (r: Outcome<M, E>)
    requires s.cp <= |log|
    ensures r.Worked? ==> s.cp < r.progress.cp <= |log|
  {
    BatchMoves(handler, log, tenant, s, limit, dismissedToo);
    Batch(handler, s, Rows(log, tenant, s.cp), limit, dismissedToo)
  }

  // ---------------------------------------------------------------------------
  // Refinement: the read model over any run
  // ---------------------------------------------------------------------------

  datatype Step<E> =
    | AppendEvent(e: Envelope<E>)
    | Dismiss(position: nat)
    | CatchUpTenant(tenant: string, limit: nat, dismissedToo: bool)

  datatype State<M, E> = State(log: seq<Envelope<E>>, tenants: map<string, Progress<M, E>>)

  function ProgressOf<M, E>(tenants: map<string, Progress<M, E>>, initial: M, tenant: string): Progress<M, E>
  {
    if tenant in tenants then tenants[tenant] else Progress(0, initial, [])
  }

  predicate Bounded<M, E>(s: State<M, E>) { forall t | t in s.tenants :: s.tenants[t].cp <= |s.log| }

  function Next<M, E>(handler: Handler<M, E>, initial: M, s: State<M, E>, step: Step<E>): (r: State<M, E>)
    requires Bounded(s)
    ensures Bounded(r)
  {
    match step
    case AppendEvent(e) => s.(log := s.log + [e])
    case Dismiss(p) => if 1 <= p <= |s.log| then s.(log := s.log[p - 1 := s.log[p - 1].(dismissed := true)]) else s
    case CatchUpTenant(t, limit, dismissedToo) =>
      var outcome := TenantBatch(handler, s.log, t, ProgressOf(s.tenants, initial, t), limit, dismissedToo);
      if outcome.Worked? then s.(tenants := s.tenants[t := outcome.progress]) else s
  }

  function After<M, E>(handler: Handler<M, E>, initial: M, steps: seq<Step<E>>): (r: State<M, E>)
    ensures Bounded(r)
  {
    if steps == [] then State([], map[])
    else Next(handler, initial, After(handler, initial, steps[..|steps| - 1]), steps[|steps| - 1])
  }

  /** An appended event is the one row of its tenant behind the end of the log, and no
      row of another tenant; no one's progress changes. */
  lemma AppendedIsNext<M, E>(handler: Handler<M, E>, initial: M, s: State<M, E>, e: Envelope<E>, tenant: string)
    requires Bounded(s)
    ensures var t := Next(handler, initial, s, AppendEvent(e));
            s.log <= t.log && t.tenants == s.tenants &&
            Rows(t.log, tenant, |s.log|) == if tenant == e.tenantId then [Row(|s.log| + 1, e.payload, e.dismissed)] else []
  {
    var log := s.log + [e];
    assert Rows(log, tenant, |log|) == [];
  }

  /** The read model is the fold over the handled rows. These are the tenant's,
      in order and once each, up to the checkpoint, and an event of the tenant
      that was passed without being handled is dismissed. */
  ghost predicate Refines<M, E>(handler: Handler<M, E>, log: seq<Envelope<E>>, initial: M, tenant: string, s: Progress<M, E>)
  {
    s.cp <= |log| && Of(log, tenant, 0, s.cp, s.handled) && Increasing(s.handled) && AllLive(log, tenant, 0, s.cp, s.handled) &&
    Fold(handler, initial, s.handled) == Some(s.model)
  }

  lemma {:induction false} FoldConcat<M, E>(handler: Handler<M, E>, model: M, a: seq<Row<E>>, b: seq<Row<E>>)
    requires Fold(handler, model, a).Some?
    ensures Fold(handler, model, a + b) == Fold(handler, Fold(handler, model, a).value, b)
  {
    if b == [] {
      assert a + b == a;
    } else {
      var n := |b| - 1;
      assert (a + b)[..|a| + n] == a + b[..n] && (a + b)[|a| + n] == b[n];
      FoldConcat(handler, model, a, b[..n]);
    }
  }

  /** A page is the tenant's live events between the checkpoint and the page's
      last event, all of them, in order. */
  lemma PageMeans<E>(log: seq<Envelope<E>>, tenant: string, cp: nat, limit: nat, dismissedToo: bool)
    requires cp <= |log| && Kept(Take(Rows(log, tenant, cp), limit), dismissedToo) != []
    ensures var page := Kept(Take(Rows(log, tenant, cp), limit), dismissedToo);
            var last := page[|page| - 1].position;
            cp < last <= |log| && Of(log, tenant, cp, last, page) && Increasing(page) && AllLive(log, tenant, cp, last, page)
  {
    var rows := Rows(log, tenant, cp);
    var m := LastKept(Take(rows, limit), dismissedToo);
    var head, last := rows[..m + 1], rows[m].position;
    assert Take(rows, limit)[..m + 1] == head && Take(rows, limit)[m] == rows[m];
    RowsOf(log, tenant, cp);
    RowsFresh(log, tenant, cp);
    hide Rows, Take;
    HeadOf(log, tenant, cp, rows, m);
    KeptOf(log, tenant, cp, last, head, dismissedToo);
    var page := Kept(head, dismissedToo);
    hide Kept, At, Has, Increasing, Of;
    forall p | cp < p <= last && p <= |log| && log[p - 1].tenantId == tenant && !log[p - 1].dismissed ensures Has(page, p) {
      var i := HeadLive(log, tenant, cp, rows, m, p);
      assert head[i] == rows[i] && !rows[i].dismissed;
      KeptHas(head, dismissedToo, i);
    }
  }

  lemma HandledExtends<E>(log: seq<Envelope<E>>, tenant: string, cp: nat, last: nat, handled: seq<Row<E>>, page: seq<Row<E>>)
    requires cp < last <= |log|
    requires Of(log, tenant, 0, cp, handled) && Increasing(handled) && AllLive(log, tenant, 0, cp, handled)
    requires Of(log, tenant, cp, last, page) && Increasing(page) && AllLive(log, tenant, cp, last, page)
    ensures var all := handled + page; Of(log, tenant, 0, last, all) && Increasing(all) && AllLive(log, tenant, 0, last, all)
  {
    var all := handled + page;
    hide At;
    forall p | 0 < p <= last && p <= |log| && log[p - 1].tenantId == tenant && !log[p - 1].dismissed ensures Has(all, p) {
      if p <= cp {
        assert Has(handled, p);
        var i :| 0 <= i < |handled| && handled[i].position == p;
        assert all[i] == handled[i];
      } else {
        assert Has(page, p);
        var i :| 0 <= i < |page| && page[i].position == p;
        assert all[|handled| + i] == page[i];
      }
    }
  }

  lemma BatchRefines<M, E>(handler: Handler<M, E>, log: seq<Envelope<E>>, initial: M, tenant: string, s: Progress<M, E>, limit: nat, dismissedToo: bool)
    requires Refines(handler, log, initial, tenant, s) && TenantBatch(handler, log, tenant, s, limit, dismissedToo).Worked?
    ensures Refines(handler, log, initial, tenant, TenantBatch(handler, log, tenant, s, limit, dismissedToo).progress)
  {
    var page := Kept(Take(Rows(log, tenant, s.cp), limit), dismissedToo);
    PageMeans(log, tenant, s.cp, limit, dismissedToo);
    hide Kept, Take, Rows, Of, Increasing, AllLive, Fold;
    HandledExtends(log, tenant, s.cp, page[|page| - 1].position, s.handled, page);
    FoldConcat(handler, initial, s.handled, page);
  }

  /** The log may grow, and events may be dismissed at any time. */
  lemma LogMovesOn<M, E>(handler: Handler<M, E>, a: seq<Envelope<E>>, b: seq<Envelope<E>>, initial: M, tenant: string, s: Progress<M, E>)
    requires Refines(handler, a, initial, tenant, s) && |a| <= |b|
    requires forall i | 0 <= i < |a| :: b[i].tenantId == a[i].tenantId && b[i].payload == a[i].payload && (a[i].dismissed ==> b[i].dismissed)
    ensures Refines(handler, b, initial, tenant, s)
  {
  }

  /** Catch-up refinement: after any run of batches of any size, handler failures,
      appends and dismissals, every tenant's read model is the fold of the handler
      over its events up to its checkpoint, in order and once each, less
      dismissed ones. */
  lemma {:induction false} CatchUpRefines<M, E>(handler: Handler<M, E>, initial: M, steps: seq<Step<E>>, tenant: string)
    ensures var s := After(handler, initial, steps); Refines(handler, s.log, initial, tenant, ProgressOf(s.tenants, initial, tenant))
  {
    if steps != [] {
      var s := After(handler, initial, steps[..|steps| - 1]);
      var step := steps[|steps| - 1];
      CatchUpRefines(handler, initial, steps[..|steps| - 1], tenant);
      hide Refines, TenantBatch;
      var p := ProgressOf(s.tenants, initial, tenant);
      match step
      case CatchUpTenant(t, limit, dismissedToo) =>
        if t == tenant && TenantBatch(handler, s.log, t, p, limit, dismissedToo).Worked? {
          BatchRefines(handler, s.log, initial, t, p, limit, dismissedToo);
        }
      case _ => LogMovesOn(handler, s.log, Next(handler, initial, s, step).log, initial, tenant, p);
    }
  }

  /** As long as no handled event is dismissed afterwards, the handled events are
      exactly the tenant's live ones up to the checkpoint. */
  lemma {:induction false} HandledIsLive<M, E>(handler: Handler<M, E>, log: seq<Envelope<E>>, initial: M, tenant: string, s: Progress<M, E>, p: nat)
    requires Refines(handler, log, initial, tenant, s) && 1 <= p <= s.cp
    requires forall i | 0 <= i < |s.handled| && 1 <= s.handled[i].position <= |log| :: !log[s.handled[i].position - 1].dismissed
    ensures Has(s.handled, p) <==> log[p - 1].tenantId == tenant && !log[p - 1].dismissed
  {
    if Has(s.handled, p) {
      var i :| 0 <= i < |s.handled| && s.handled[i].position == p;
      assert At(log, tenant, s.handled[i]);
    }
  }

  // ---------------------------------------------------------------------------
  // Draining a tenant
  // ---------------------------------------------------------------------------

  datatype Drained<M, E> = Drained(progress: Progress<M, E>, failed: bool)

  /** Batches of one tenant until nothing is pending or the handler fails. */
  function Drain<M, E>(handler: Handler<M, E>, log: seq<Envelope<E>>, tenant: string, s: Progress<M, E>, limit: nat, dismissedToo: bool): (r: Drained<M, E>)
    requires s.cp <= |log|
    ensures r.progress.cp <= |log|
    decreases |log| - s.cp
  {
    match TenantBatch(handler, log, tenant, s, limit, dismissedToo)
    case Idle => Drained(s, false)
    case Failed => Drained(s, true)
    case Worked(p) => Drain(handler, log, tenant, p, limit, dismissedToo)
  }

  /** The tenant has the same events at the same positions in both logs. */
  ghost predicate SameFor<E>(a: seq<Envelope<E>>, b: seq<Envelope<E>>, tenant: string)
  {
    |a| == |b| && forall i | 0 <= i < |a| && (a[i].tenantId == tenant || b[i].tenantId == tenant) :: a[i] == b[i]
  }

  lemma {:induction false} SameRows<E>(a: seq<Envelope<E>>, b: seq<Envelope<E>>, tenant: string, from: nat)
    requires SameFor(a, b, tenant) && from <= |a|
    ensures Rows(a, tenant, from) == Rows(b, tenant, from)
    decreases |a| - from
  {
    if from < |a| {
      SameRows(a, b, tenant, from + 1);
      assert a[from].tenantId == tenant <==> b[from].tenantId == tenant;
    }
  }

  /** Tenant isolation: what catching up does for a tenant is decided by that
      tenant's own events; the others' volume, dismissals and failing events do
      not change it. */
  lemma {:induction false} TenantIsolation<M, E>(handler: Handler<M, E>, a: seq<Envelope<E>>, b: seq<Envelope<E>>, tenant: string, s: Progress<M, E>, limit: nat, dismissedToo: bool)
    requires s.cp <= |a| && SameFor(a, b, tenant)
    ensures Drain(handler, a, tenant, s, limit, dismissedToo) == Drain(handler, b, tenant, s, limit, dismissedToo)
    decreases |a| - s.cp
  {
    SameRows(a, b, tenant, s.cp);
    hide Rows, Kept, Take, Fold, SameFor;
    var batch := TenantBatch(handler, a, tenant, s, limit, dismissedToo);
    if batch.Worked? { TenantIsolation(handler, a, b, tenant, batch.progress, limit, dismissedToo); }
  }

  /** limit rows from the i-th one on that the page would drop. */
  predicate Wall<E>(rows: seq<Row<E>>, i: nat, limit: nat, dismissedToo: bool)
  {
    i + limit <= |rows| && forall k | i <= k < i + limit :: !Live(rows[k], dismissedToo)
  }

  /** A whole page of dismissed rows stands before a live one. */
  ghost predicate Blocked<E>(rows: seq<Row<E>>, limit: nat, dismissedToo: bool)
  {
    exists i: nat :: Wall(rows, i, limit, dismissedToo) && LiveFrom(rows, i + limit, dismissedToo)
  }

  lemma WallBehind<E>(rows: seq<Row<E>>, n: nat, i: nat, limit: nat, dismissedToo: bool)
    requires n <= |rows|
    ensures Wall(rows[n..], i, limit, dismissedToo) <==> Wall(rows, i + n, limit, dismissedToo)
    ensures LiveFrom(rows[n..], i, dismissedToo) <==> LiveFrom(rows, i + n, dismissedToo)
  {
    var rest := rows[n..];
    hide Live;
    if Wall(rest, i, limit, dismissedToo) {
      forall k | i + n <= k < i + n + limit ensures !Live(rows[k], dismissedToo) { assert rest[k - n] == rows[k]; }
    }
    if LiveFrom(rest, i, dismissedToo) {
      var j :| i <= j < |rest| && Live(rest[j], dismissedToo);
      assert rows[j + n] == rest[j];
    }
    if LiveFrom(rows, i + n, dismissedToo) {
      var j :| i + n <= j < |rows| && Live(rows[j], dismissedToo);
      assert rest[j - n] == rows[j];
    }
  }

  /** Dropping rows up to a live one of the page does not change whether the rest
      is blocked. */
  lemma BlockedBehind<E>(rows: seq<Row<E>>, m: nat, limit: nat, dismissedToo: bool)
    requires m < |rows| && m < limit && Live(rows[m], dismissedToo)
    ensures Blocked(rows[m + 1..], limit, dismissedToo) <==> Blocked(rows, limit, dismissedToo)
  {
    var rest := rows[m + 1..];
    if Blocked(rest, limit, dismissedToo) {
      var i: nat :| Wall(rest, i, limit, dismissedToo) && LiveFrom(rest, i + limit, dismissedToo);
      WallBehind(rows, m + 1, i, limit, dismissedToo);
      WallBehind(rows, m + 1, i + limit, limit, dismissedToo);
      assert Wall(rows, i + (m + 1), limit, dismissedToo);
    }
    if Blocked(rows, limit, dismissedToo) {
      var i: nat :| Wall(rows, i, limit, dismissedToo) && LiveFrom(rows, i + limit, dismissedToo);
      assert i > m;
      hide Wall, LiveFrom, Live;
      WallBehind(rows, m + 1, i - (m + 1), limit, dismissedToo);
      WallBehind(rows, m + 1, i + limit - (m + 1), limit, dismissedToo);
      assert Wall(rest, i - (m + 1), limit, dismissedToo);
    }
  }

  /** Catch-up completeness: a tenant whose handler does not fail is processed to
      the end exactly when no full page of dismissed rows stands before a live
      one; the store filters after its LIMIT, and such a page looks like the end. */
  lemma {:induction false} DrainCompletes<M, E>(handler: Handler<M, E>, log: seq<Envelope<E>>, tenant: string, s: Progress<M, E>, limit: nat, dismissedToo: bool)
    requires s.cp <= |log| && limit >= 1 && !Drain(handler, log, tenant, s, limit, dismissedToo).failed
    ensures LiveFrom(Rows(log, tenant, Drain(handler, log, tenant, s, limit, dismissedToo).progress.cp), 0, dismissedToo) <==>
            Blocked(Rows(log, tenant, s.cp), limit, dismissedToo)
    decreases |log| - s.cp
  {
    var rows := Rows(log, tenant, s.cp);
    var taken := Take(rows, limit);
    var batch := TenantBatch(handler, log, tenant, s, limit, dismissedToo);
    if batch.Worked? {
      var m := LastKept(taken, dismissedToo);
      assert taken[m] == rows[m];
      RowsAfter(log, tenant, s.cp, m);
      hide Blocked, LiveFrom, Rows, Fold, Kept, Live;
      BlockedBehind(rows, m, limit, dismissedToo);
      DrainCompletes(handler, log, tenant, batch.progress, limit, dismissedToo);
    } else {
      KeptNothing(taken, dismissedToo);
      hide Rows, Kept, Fold, Blocked, LiveFrom, Live;
      IdleMeans(rows, limit, dismissedToo);
    }
  }

  lemma IdleMeans<E>(rows: seq<Row<E>>, limit: nat, dismissedToo: bool)
    requires !LiveFrom(Take(rows, limit), 0, dismissedToo)
    ensures Blocked(rows, limit, dismissedToo) <==> LiveFrom(rows, 0, dismissedToo)
  {
    var taken := Take(rows, limit);
    hide Live;
    assert forall k | 0 <= k < |taken| :: taken[k] == rows[k] && !Live(taken[k], dismissedToo);
    if LiveFrom(rows, 0, dismissedToo) {
      var j :| 0 <= j < |rows| && Live(rows[j], dismissedToo);
      assert j >= |taken|;
      assert forall k | 0 <= k < limit :: !Live(taken[k], dismissedToo);
      assert Wall(rows, 0, limit, dismissedToo);
      assert LiveFrom(rows, 0 + limit, dismissedToo);
    }
  }

  /** Projections that take dismissed events too are never blocked. */
  lemma NeverBlocked<E>(rows: seq<Row<E>>, limit: nat)
    requires limit >= 1
    ensures !Blocked(rows, limit, true)
  {
    forall i: nat | i + limit <= |rows| ensures !Wall(rows, i, limit, true) { assert Live(rows[i], true); }
  }

  // ---------------------------------------------------------------------------
  // The projector
  // ---------------------------------------------------------------------------

  /** What is left to do for the pending tenants. */
  function Remaining<M, E>(n: nat, initial: M, tenants: map<string, Progress<M, E>>, pending: seq<string>): nat
  {
    if pending == [] then 0
    else
      var cp := ProgressOf(tenants, initial, pending[|pending| - 1]).cp;
      Remaining(n, initial, tenants, pending[..|pending| - 1]) + 1 + if cp <= n then n - cp else 0
  }

  /** Where catching a tenant up ends, from its progress in a table. */
  ghost function End<M, E>(handler: Handler<M, E>, initial: M, log: seq<Envelope<E>>, tenants: map<string, Progress<M, E>>, t: string, limit: nat, dismissedToo: bool): Progress<M, E>
    requires Bounded(State(log, tenants))
  {
    Drain(handler, log, t, ProgressOf(tenants, initial, t), limit, dismissedToo).progress
  }

  /** Every tenant is somewhere on the way from its first progress to the same
      end; tenants that are not in play have not moved, and those in play that
      are no longer pending are at the end. */
  ghost predicate OnTheWay<M, E>(handler: Handler<M, E>, initial: M, log: seq<Envelope<E>>, first: map<string, Progress<M, E>>,
                                 now: map<string, Progress<M, E>>, inPlay: seq<string>, pending: seq<string>, limit: nat, dismissedToo: bool)
    requires Bounded(State(log, first)) && Bounded(State(log, now))
  {
    (forall t :: End(handler, initial, log, now, t, limit, dismissedToo) == End(handler, initial, log, first, t, limit, dismissedToo)) &&
    (forall t | t !in inPlay :: ProgressOf(now, initial, t) == ProgressOf(first, initial, t)) &&
    (forall t | t in inPlay && t !in pending :: ProgressOf(now, initial, t) == End(handler, initial, log, first, t, limit, dismissedToo))
  }

  /** One tenant after k batches, of which the first that does not work is the last
      to be run. */
  function AfterBatches<M, E>(handler: Handler<M, E>, log: seq<Envelope<E>>, tenant: string, s: Progress<M, E>, limit: nat, dismissedToo: bool, k: nat): (r: Progress<M, E>)
    requires s.cp <= |log|
    ensures r.cp <= |log|
  {
    if k == 0 then s
    else
      var last := AfterBatches(handler, log, tenant, s, limit, dismissedToo, k - 1);
      var batch := TenantBatch(handler, log, tenant, last, limit, dismissedToo);
      if batch.Worked? then batch.progress else last
  }

  /** There was work for all of k batches. */
  predicate Working<M, E>(handler: Handler<M, E>, log: seq<Envelope<E>>, tenant: string, s: Progress<M, E>, limit: nat, dismissedToo: bool, k: nat)
    requires s.cp <= |log|
  {
    k == 0 ||
    (Working(handler, log, tenant, s, limit, dismissedToo, k - 1) &&
     TenantBatch(handler, log, tenant, AfterBatches(handler, log, tenant, s, limit, dismissedToo, k - 1), limit, dismissedToo).Worked?)
  }

  /** A tenant that has no work, or whose handler fails, does not move again. */
  lemma {:induction false} IdleStays<M, E>(handler: Handler<M, E>, log: seq<Envelope<E>>, tenant: string, s: Progress<M, E>, limit: nat, dismissedToo: bool, k: nat)
    requires s.cp <= |log| && !Working(handler, log, tenant, s, limit, dismissedToo, k)
    ensures AfterBatches(handler, log, tenant, s, limit, dismissedToo, k + 1) == AfterBatches(handler, log, tenant, s, limit, dismissedToo, k)
    ensures !Working(handler, log, tenant, s, limit, dismissedToo, k + 1)
  {
    hide TenantBatch;
    if !Working(handler, log, tenant, s, limit, dismissedToo, k - 1) {
      IdleStays(handler, log, tenant, s, limit, dismissedToo, k - 1);
    }
  }

  /** Every discovered tenant has had k batches, and is pending while all worked. */
  ghost predicate Passed<M, E>(handler: Handler<M, E>, initial: M, log: seq<Envelope<E>>, first: map<string, Progress<M, E>>,
                               now: map<string, Progress<M, E>>, discovered: seq<string>, pending: seq<string>, limit: nat, dismissedToo: bool, k: nat)
    requires Bounded(State(log, first))
  {
    forall t | t in discovered ::
      ProgressOf(now, initial, t) == AfterBatches(handler, log, t, ProgressOf(first, initial, t), limit, dismissedToo, k) &&
      (t in pending <==> Working(handler, log, t, ProgressOf(first, initial, t), limit, dismissedToo, k))
  }

  /** One more pass. */
  lemma PassedOnce<M, E>(handler: Handler<M, E>, initial: M, log: seq<Envelope<E>>, first: map<string, Progress<M, E>>,
                         before: map<string, Progress<M, E>>, now: map<string, Progress<M, E>>,
                         discovered: seq<string>, pending: seq<string>, still: seq<string>, limit: nat, dismissedToo: bool, k: nat)
    requires Bounded(State(log, first)) && Bounded(State(log, before)) && Bounded(State(log, now))
    requires forall t | t in pending :: t in discovered
    requires Passed(handler, initial, log, first, before, discovered, pending, limit, dismissedToo, k)
    requires Passed(handler, initial, log, before, now, pending, still, limit, dismissedToo, 1)
    requires forall t | t !in pending :: t !in still && ProgressOf(now, initial, t) == ProgressOf(before, initial, t)
    ensures Passed(handler, initial, log, first, now, discovered, still, limit, dismissedToo, k + 1)
  {
    hide TenantBatch;
    forall t | t in discovered
      ensures ProgressOf(now, initial, t) == AfterBatches(handler, log, t, ProgressOf(first, initial, t), limit, dismissedToo, k + 1)
      ensures t in still <==> Working(handler, log, t, ProgressOf(first, initial, t), limit, dismissedToo, k + 1)
    {
      var s := ProgressOf(first, initial, t);
      hide ProgressOf;
      if t in pending {
        var last := AfterBatches(handler, log, t, s, limit, dismissedToo, k);
        assert last == ProgressOf(before, initial, t);
        assert AfterBatches(handler, log, t, last, limit, dismissedToo, 0) == last;
        assert Working(handler, log, t, last, limit, dismissedToo, 0);
      } else {
        IdleStays(handler, log, t, s, limit, dismissedToo, k);
      }
    }
  }

  /** The order of tenant ids, which the database's collation decides. */
  ghost predicate Ordering(comesBefore: (string, string) -> bool)
  {
    (forall a, b :: a == b || comesBefore(a, b) || comesBefore(b, a)) &&
    (forall a, b :: !(comesBefore(a, b) && comesBefore(b, a))) &&
    forall a, b, c :: comesBefore(a, b) && comesBefore(b, c) ==> comesBefore(a, c)
  }

  predicate Ascending(comesBefore: (string, string) -> bool, ts: seq<string>)
  {
    forall i, j | 0 <= i < j < |ts| :: comesBefore(ts[i], ts[j])
  }

  function Insert(comesBefore: (string, string) -> bool, t: string, ts: seq<string>): seq<string>
  {
    if ts == [] then [t] else if comesBefore(t, ts[0]) then [t] + ts else [ts[0]] + Insert(comesBefore, t, ts[1..])
  }

  lemma {:induction false} InsertAscends(comesBefore: (string, string) -> bool, t: string, ts: seq<string>)
    requires Ordering(comesBefore) && Ascending(comesBefore, ts) && t !in ts
    ensures Ascending(comesBefore, Insert(comesBefore, t, ts))
    ensures forall u :: u in Insert(comesBefore, t, ts) <==> u == t || u in ts
  {
    if ts != [] && !comesBefore(t, ts[0]) {
      InsertAscends(comesBefore, t, ts[1..]);
      var rest := Insert(comesBefore, t, ts[1..]);
      forall j | 0 <= j < |rest| ensures comesBefore(ts[0], rest[j]) {
        assert rest[j] in rest;
      }
    }
  }

  /** The tenants of a log, each once, in order. */
  ghost predicate AreTenants<E>(comesBefore: (string, string) -> bool, log: seq<Envelope<E>>, ts: seq<string>)
  {
    Ascending(comesBefore, ts) &&
    (forall t | t in ts :: exists i :: 0 <= i < |log| && log[i].tenantId == t) && forall i | 0 <= i < |log| :: log[i].tenantId in ts
  }

  /** The largest number of tenants that one discovery returns. */
  const DISCOVERY_LIMIT: nat := 10000

  class CatchUpProjector<M, E> {
    const handler: Handler<M, E>
    const initial: M
    const comesBefore: (string, string) -> bool
    var log: seq<Envelope<E>>
    var tenants: map<string, Progress<M, E>>

    constructor (handler: Handler<M, E>, initial: M, comesBefore: (string, string) -> bool, log: seq<Envelope<E>>)
      ensures this.handler == handler && this.initial == initial && this.comesBefore == comesBefore && this.log == log && tenants == map[]
      ensures Valid()
    {
      this.handler, this.initial, this.comesBefore, this.log, tenants := handler, initial, comesBefore, log, map[];
    }

    ghost predicate Valid()
      reads this
    {
      Bounded(State(log, tenants))
    }

    /** processTenantBatch: true when the checkpoint moved, false when nothing is
        pending, None when the handler failed and everything was rolled back. */
    method ProcessTenantBatch(tenant: string, batchSize: nat, dismissedToo: bool) returns (r: Option<bool>)
      requires Valid()
      modifies this`tenants
      ensures Valid() && old(Valid())
      ensures forall t | t != tenant :: ProgressOf(tenants, initial, t) == ProgressOf(old(tenants), initial, t)
      ensures var s := ProgressOf(old(tenants), initial, tenant);
              var outcome := TenantBatch(handler, log, tenant, s, batchSize, dismissedToo);
              r == (if outcome.Failed? then None else Some(outcome.Worked?)) &&
              ProgressOf(tenants, initial, tenant) == Moved(handler, log, tenant, s, batchSize, dismissedToo)
    {
      var s := ProgressOf(tenants, initial, tenant);
      var rows := Take(Rows(log, tenant, s.cp), batchSize);
      BatchMoves(handler, log, tenant, s, batchSize, dismissedToo);
      hide Rows, Take, Fold;
      var envs := Filtered(rows, dismissedToo);
      if envs == [] { return Some(false); }
      var model := HandleAll(s.model, envs);
      if model.None? { return None; }
      var lastPosition := envs[|envs| - 1].position;
      tenants := tenants[tenant := Progress(lastPosition, model.value, s.handled + envs)];
      return Some(true);
    }

    /** The filter of loadGlobal. */
    method Filtered(rows: seq<Row<E>>, dismissedToo: bool) returns (envs: seq<Row<E>>)
      ensures envs == Kept(rows, dismissedToo)
    {
      envs := [];
      for i := 0 to |rows|
        invariant envs + Kept(rows[i..], dismissedToo) == Kept(rows, dismissedToo)
      {
        assert rows[i..][1..] == rows[i + 1..];
        if dismissedToo || !rows[i].dismissed { envs := envs + [rows[i]]; }
      }
    }

    /** The handler loop, on a working copy of the read model. */
    method HandleAll(model: M, envs: seq<Row<E>>) returns (r: Option<M>)
      ensures r == Fold(handler, model, envs)
    {
      var m := model;
      for i := 0 to |envs|
        invariant Fold(handler, model, envs[..i]) == Some(m)
      {
        assert envs[..i + 1][..i] == envs[..i];
        var next := handler(m, envs[i].payload);
        if next.None? {
          FoldFails(handler, model, envs, i + 1);
          return None;
        }
        m := next.value;
      }
      assert envs[..|envs|] == envs;
      return Some(m);
    }

    /** discoverActiveTenants: the tenants of the log in order, up to the limit. */
    method Discover() returns (ts: seq<string>, ghost all: seq<string>)
      requires Ordering(comesBefore)
      ensures AreTenants(comesBefore, log, all)
      ensures ts == if |all| <= 10000 then all else all[..10000]
      ensures Ascending(comesBefore, ts) && |ts| <= 10000 && forall t | t in ts :: exists i :: 0 <= i < |log| && log[i].tenantId == t
      ensures forall i | 0 <= i < |log| && log[i].tenantId !in ts :: |ts| == 10000 && forall t | t in ts :: comesBefore(t, log[i].tenantId)
    {
      var found: seq<string> := [];
      for i := 0 to |log|
        invariant AreTenants(comesBefore, log[..i], found)
      {
        if log[i].tenantId !in found {
          InsertAscends(comesBefore, log[i].tenantId, found);
          TenantsGrow(comesBefore, log, i, found, Insert(comesBefore, log[i].tenantId, found));
          found := Insert(comesBefore, log[i].tenantId, found);
        } else {
          TenantsGrow(comesBefore, log, i, found, found);
        }
      }
      assert log[..|log|] == log;
      CutOff(comesBefore, log, found);
      return if |found| <= DISCOVERY_LIMIT then found else found[..DISCOVERY_LIMIT], found;
    }

    /** What the projector keeps between batches of a pass: the tenants that have
        had their batch, and those of them that are still pending. */
    ghost predicate InPass(first: map<string, Progress<M, E>>, done: seq<string>, still: seq<string>, batchSize: nat, dismissedToo: bool)
      reads this
    {
      Valid() && Bounded(State(log, first)) && Distinct(still) && (forall t | t in still :: t in done) &&
      OnTheWay(handler, initial, log, first, tenants, done, still, batchSize, dismissedToo) &&
      Passed(handler, initial, log, first, tenants, done, still, batchSize, dismissedToo, 1) &&
      Remaining(|log|, initial, tenants, still) + |done| <= Remaining(|log|, initial, first, done)
    }

    /** A pass over one more tenant. */
    method Visit(ghost first: map<string, Progress<M, E>>, ghost done: seq<string>, pending: seq<string>, t: string, batchSize: nat, dismissedToo: bool)
      returns (still: seq<string>)
      requires InPass(first, done, pending, batchSize, dismissedToo) && t !in done
      modifies this`tenants
      ensures InPass(first, done + [t], still, batchSize, dismissedToo)
    {
      hide OnTheWay, Remaining, TenantBatch, Drain, Passed;
      ghost var before := tenants;
      var didWork := ProcessTenantBatch(t, batchSize, dismissedToo);
      TenantMoves(handler, initial, log, first, before, tenants, done, pending, t, batchSize, dismissedToo);
      NotYet(handler, initial, log, first, before, done, pending, t, batchSize, dismissedToo);
      RemainingMoves(|log|, initial, first, before, tenants, done, pending, t);
      still := if didWork == Some(true) then pending + [t] else pending;
      PassedNext(handler, initial, log, first, before, tenants, done, pending, still, t, batchSize, dismissedToo);
    }

    /** One pass over the pending tenants, a batch each. The tenants that had
        nothing pending or failed are dropped; every other one has moved on. */
    method Pass(pending: seq<string>, batchSize: nat, dismissedToo: bool) returns (still: seq<string>)
      requires Valid() && Distinct(pending)
      modifies this`tenants
      ensures InPass(old(tenants), pending, still, batchSize, dismissedToo)
    {
      still := [];
      assert pending[..0] == [];
      for i := 0 to |pending|
        invariant InPass(old(tenants), pending[..i], still, batchSize, dismissedToo)
      {
        hide InPass;
        assert pending[..i] + [pending[i]] == pending[..i + 1] && pending[i] !in pending[..i];
        still := Visit(old(tenants), pending[..i], still, pending[i], batchSize, dismissedToo);
      }
      assert pending[..|pending|] == pending;
    }

    /** catchUpProjection: round-robin passes until no tenant is pending. It ends;
        without a cap on passes every discovered tenant is drained, and no tenant
        is affected by what happens to another. A tenant that the limit of the
        discovery cuts off does not move. */
    method CatchUpProjection(batchSize: nat, dismissedToo: bool, maxBatches: Option<nat>)
      returns (ghost all: seq<string>, ghost discovered: seq<string>, pending: seq<string>, passes: nat)
      requires Valid() && Ordering(comesBefore)
      modifies this`tenants
      ensures Valid() && old(Valid())
      ensures AreTenants(comesBefore, log, all) && discovered == if |all| <= 10000 then all else all[..10000]
      ensures pending == [] || (maxBatches.Some? && passes == maxBatches.value)
      ensures maxBatches.Some? ==> passes <= maxBatches.value
      ensures OnTheWay(handler, initial, log, old(tenants), tenants, discovered, pending, batchSize, dismissedToo)
      ensures Passed(handler, initial, log, old(tenants), tenants, discovered, pending, batchSize, dismissedToo, passes)
    {
      hide OnTheWay, Remaining, Passed, Ordering, AreTenants, Ascending;
      pending, all := Discover();
      discovered := pending;
      passes := 0;
      AscendingDistinct(comesBefore, log, all, |pending|);
      NothingPassed(handler, initial, log, tenants, pending, batchSize, dismissedToo);
      while pending != []
        invariant Valid() && Distinct(pending) && forall t | t in pending :: t in discovered
        invariant maxBatches.Some? ==> passes <= maxBatches.value
        invariant OnTheWay(handler, initial, log, old(tenants), tenants, discovered, pending, batchSize, dismissedToo)
        invariant Passed(handler, initial, log, old(tenants), tenants, discovered, pending, batchSize, dismissedToo, passes)
        decreases Remaining(|log|, initial, tenants, pending)
      {
        if maxBatches.Some? && passes >= maxBatches.value { return; }
        passes := passes + 1;
        ghost var before, was := tenants, pending;
        pending := Pass(pending, batchSize, dismissedToo);
        NotInPlay(handler, initial, log, before, tenants, was, pending, batchSize, dismissedToo);
        PassedOnce(handler, initial, log, old(tenants), before, tenants, discovered, was, pending, batchSize, dismissedToo, passes - 1);
        PassOnTheWay(handler, initial, log, old(tenants), before, tenants, discovered, was, pending, batchSize, dismissedToo);
      }
    }
  }

  lemma TenantsGrow<E>(comesBefore: (string, string) -> bool, log: seq<Envelope<E>>, i: nat, found: seq<string>, more: seq<string>)
    requires i < |log| && AreTenants(comesBefore, log[..i], found) && Ascending(comesBefore, more)
    requires forall u :: u in more <==> u == log[i].tenantId || u in found
    ensures AreTenants(comesBefore, log[..i + 1], more)
  {
    hide Ascending;
    var was, now := log[..i], log[..i + 1];
    forall u | u in more ensures exists k :: 0 <= k < |now| && now[k].tenantId == u {
      if u == log[i].tenantId {
        assert now[i].tenantId == u;
      } else {
        var k :| 0 <= k < |was| && was[k].tenantId == u;
        assert now[k].tenantId == u;
      }
    }
    forall k | 0 <= k < |now| ensures now[k].tenantId in more { assert k < i ==> was[k].tenantId in found; }
  }

  /** Cutting the list off leaves its first tenants, behind which the others come. */
  lemma CutOff<E>(comesBefore: (string, string) -> bool, log: seq<Envelope<E>>, all: seq<string>)
    requires AreTenants(comesBefore, log, all)
    ensures var ts := if |all| <= 10000 then all else all[..10000];
            Ascending(comesBefore, ts) && (forall t | t in ts :: exists i :: 0 <= i < |log| && log[i].tenantId == t) &&
            forall i | 0 <= i < |log| && log[i].tenantId !in ts :: |ts| == 10000 && forall t | t in ts :: comesBefore(t, log[i].tenantId)
  {
    if |all| > 10000 {
      var ts := all[..10000];
      forall t | t in ts ensures t in all {
        var k :| 0 <= k < |ts| && ts[k] == t;
        assert all[k] == t;
      }
      forall i, t | 0 <= i < |log| && log[i].tenantId !in ts && t in ts ensures comesBefore(t, log[i].tenantId) {
        assert log[i].tenantId in all;
        var k :| 0 <= k < |all| && all[k] == log[i].tenantId;
        var j :| 0 <= j < |ts| && ts[j] == t;
        if k < 10000 { assert ts[k] == log[i].tenantId; }
      }
    }
  }

  lemma AscendingDistinct<E>(comesBefore: (string, string) -> bool, log: seq<Envelope<E>>, ts: seq<string>, n: nat)
    requires Ordering(comesBefore) && AreTenants(comesBefore, log, ts) && n <= |ts|
    ensures Distinct(ts) && Distinct(ts[..n])
  {
  }

  lemma NothingPassed<M, E>(handler: Handler<M, E>, initial: M, log: seq<Envelope<E>>, now: map<string, Progress<M, E>>,
                            pending: seq<string>, limit: nat, dismissedToo: bool)
    requires Bounded(State(log, now))
    ensures OnTheWay(handler, initial, log, now, now, pending, pending, limit, dismissedToo)
    ensures Passed(handler, initial, log, now, now, pending, pending, limit, dismissedToo, 0)
  {
    hide Drain;
  }

  lemma NotInPlay<M, E>(handler: Handler<M, E>, initial: M, log: seq<Envelope<E>>, before: map<string, Progress<M, E>>,
                        now: map<string, Progress<M, E>>, pending: seq<string>, still: seq<string>, limit: nat, dismissedToo: bool)
    requires Bounded(State(log, before)) && Bounded(State(log, now))
    requires OnTheWay(handler, initial, log, before, now, pending, still, limit, dismissedToo)
    ensures forall t | t !in pending :: ProgressOf(now, initial, t) == ProgressOf(before, initial, t)
  {
    hide Drain, ProgressOf;
  }

  /** A pass over one more tenant. */
  lemma PassedNext<M, E>(handler: Handler<M, E>, initial: M, log: seq<Envelope<E>>, first: map<string, Progress<M, E>>,
                         before: map<string, Progress<M, E>>, now: map<string, Progress<M, E>>,
                         done: seq<string>, pending: seq<string>, still: seq<string>, t: string, limit: nat, dismissedToo: bool)
    requires Bounded(State(log, first)) && t !in done && forall u | u in pending :: u in done
    requires Passed(handler, initial, log, first, before, done, pending, limit, dismissedToo, 1)
    requires forall u | u != t :: ProgressOf(now, initial, u) == ProgressOf(before, initial, u)
    requires ProgressOf(before, initial, t) == ProgressOf(first, initial, t)
    requires var batch := TenantBatch(handler, log, t, ProgressOf(first, initial, t), limit, dismissedToo);
             still == (if batch.Worked? then pending + [t] else pending) &&
             ProgressOf(now, initial, t) == if batch.Worked? then batch.progress else ProgressOf(first, initial, t)
    ensures Passed(handler, initial, log, first, now, done + [t], still, limit, dismissedToo, 1)
  {
    var s := ProgressOf(first, initial, t);
    assert s.cp <= |log|;
    hide TenantBatch, ProgressOf;
    assert AfterBatches(handler, log, t, s, limit, dismissedToo, 0) == s && Working(handler, log, t, s, limit, dismissedToo, 0);
    assert AfterBatches(handler, log, t, s, limit, dismissedToo, 1) == ProgressOf(now, initial, t);
    assert Working(handler, log, t, s, limit, dismissedToo, 1) <==> t in still;
  }

  /** A batch does not change where draining ends, and one that does not move is
      the end. */
  lemma DrainStep<M, E>(handler: Handler<M, E>, log: seq<Envelope<E>>, tenant: string, s: Progress<M, E>, limit: nat, dismissedToo: bool)
    requires s.cp <= |log|
    ensures var batch := TenantBatch(handler, log, tenant, s, limit, dismissedToo);
            var end := Drain(handler, log, tenant, s, limit, dismissedToo);
            if batch.Worked? then Drain(handler, log, tenant, batch.progress, limit, dismissedToo) == end else end.progress == s
  {
    hide TenantBatch;
  }

  /** Progress of one tenant after a batch that may have moved it. */
  function Moved<M, E>(handler: Handler<M, E>, log: seq<Envelope<E>>, tenant: string, s: Progress<M, E>, limit: nat, dismissedToo: bool): (r: Progress<M, E>)
    requires s.cp <= |log|
    ensures s.cp <= r.cp <= |log|
  {
    var batch := TenantBatch(handler, log, tenant, s, limit, dismissedToo);
    if batch.Worked? then batch.progress else s
  }

  /** What one batch of one tenant means for a pass. */
  lemma {:induction false} TenantMoves<M, E>(handler: Handler<M, E>, initial: M, log: seq<Envelope<E>>, first: map<string, Progress<M, E>>,
                          before: map<string, Progress<M, E>>, after: map<string, Progress<M, E>>,
                          done: seq<string>, still: seq<string>, t: string, limit: nat, dismissedToo: bool)
    requires Bounded(State(log, first)) && Bounded(State(log, before)) && Bounded(State(log, after))
    requires OnTheWay(handler, initial, log, first, before, done, still, limit, dismissedToo)
    requires t !in done && forall u | u in still :: u in done
    requires forall u | u != t :: ProgressOf(after, initial, u) == ProgressOf(before, initial, u)
    requires ProgressOf(after, initial, t) == Moved(handler, log, t, ProgressOf(before, initial, t), limit, dismissedToo)
    ensures var worked := TenantBatch(handler, log, t, ProgressOf(before, initial, t), limit, dismissedToo).Worked?;
            OnTheWay(handler, initial, log, first, after, done + [t], if worked then still + [t] else still, limit, dismissedToo)
  {
    var worked := TenantBatch(handler, log, t, ProgressOf(before, initial, t), limit, dismissedToo).Worked?;
    var next := if worked then still + [t] else still;
    MovedEnd(handler, initial, log, before, after, t, limit, dismissedToo);
    forall u | u != t ensures End(handler, initial, log, after, u, limit, dismissedToo) == End(handler, initial, log, before, u, limit, dismissedToo) {
      SameEnd(handler, initial, log, before, after, u, limit, dismissedToo);
    }
    hide TenantBatch, Drain, Moved, End, ProgressOf, Bounded;
    forall u | u in done + [t] && u !in next
      ensures ProgressOf(after, initial, u) == End(handler, initial, log, first, u, limit, dismissedToo)
    {
      if u != t { assert u in done && u !in still; }
    }
  }

  lemma SameEnd<M, E>(handler: Handler<M, E>, initial: M, log: seq<Envelope<E>>, before: map<string, Progress<M, E>>,
                      after: map<string, Progress<M, E>>, u: string, limit: nat, dismissedToo: bool)
    requires Bounded(State(log, before)) && Bounded(State(log, after)) && ProgressOf(after, initial, u) == ProgressOf(before, initial, u)
    ensures End(handler, initial, log, after, u, limit, dismissedToo) == End(handler, initial, log, before, u, limit, dismissedToo)
  {
    hide Drain;
  }

  lemma MovedEnd<M, E>(handler: Handler<M, E>, initial: M, log: seq<Envelope<E>>, before: map<string, Progress<M, E>>,
                       after: map<string, Progress<M, E>>, t: string, limit: nat, dismissedToo: bool)
    requires Bounded(State(log, before)) && Bounded(State(log, after))
    requires ProgressOf(after, initial, t) == Moved(handler, log, t, ProgressOf(before, initial, t), limit, dismissedToo)
    ensures End(handler, initial, log, after, t, limit, dismissedToo) == End(handler, initial, log, before, t, limit, dismissedToo)
    ensures !TenantBatch(handler, log, t, ProgressOf(before, initial, t), limit, dismissedToo).Worked? ==>
              ProgressOf(after, initial, t) == End(handler, initial, log, before, t, limit, dismissedToo)
  {
    DrainStep(handler, log, t, ProgressOf(before, initial, t), limit, dismissedToo);
    hide TenantBatch, Drain;
  }

  lemma NotYet<M, E>(handler: Handler<M, E>, initial: M, log: seq<Envelope<E>>, first: map<string, Progress<M, E>>,
                     before: map<string, Progress<M, E>>, done: seq<string>, still: seq<string>, t: string, limit: nat, dismissedToo: bool)
    requires Bounded(State(log, first)) && Bounded(State(log, before)) && t !in done
    requires OnTheWay(handler, initial, log, first, before, done, still, limit, dismissedToo)
    ensures ProgressOf(before, initial, t) == ProgressOf(first, initial, t)
  {
    hide Drain;
  }

  lemma RemainingMoves<M, E>(n: nat, initial: M, first: map<string, Progress<M, E>>, before: map<string, Progress<M, E>>,
                             after: map<string, Progress<M, E>>, done: seq<string>, still: seq<string>, t: string)
    requires t !in still && forall u | u != t :: ProgressOf(after, initial, u) == ProgressOf(before, initial, u)
    requires ProgressOf(before, initial, t) == ProgressOf(first, initial, t) && ProgressOf(after, initial, t).cp <= n
    requires Remaining(n, initial, before, still) + |done| <= Remaining(n, initial, first, done)
    ensures Remaining(n, initial, after, still) + |done| + 1 <= Remaining(n, initial, first, done + [t])
    ensures ProgressOf(after, initial, t).cp > ProgressOf(before, initial, t).cp ==>
              Remaining(n, initial, after, still + [t]) + |done| + 1 <= Remaining(n, initial, first, done + [t])
  {
    RemainingSame(n, initial, before, after, still);
    assert (done + [t])[..|done|] == done && (still + [t])[..|still|] == still;
    hide ProgressOf;
  }

  lemma {:induction false} RemainingSame<M, E>(n: nat, initial: M, a: map<string, Progress<M, E>>, b: map<string, Progress<M, E>>, pending: seq<string>)
    requires forall t | t in pending :: ProgressOf(a, initial, t) == ProgressOf(b, initial, t)
    ensures Remaining(n, initial, a, pending) == Remaining(n, initial, b, pending)
  {
    if pending != [] { RemainingSame(n, initial, a, b, pending[..|pending| - 1]); }
  }

  /** Passes compose. */
  lemma PassOnTheWay<M, E>(handler: Handler<M, E>, initial: M, log: seq<Envelope<E>>, first: map<string, Progress<M, E>>,
                           before: map<string, Progress<M, E>>, after: map<string, Progress<M, E>>,
                           discovered: seq<string>, pending: seq<string>, still: seq<string>, limit: nat, dismissedToo: bool)
    requires Bounded(State(log, first)) && Bounded(State(log, before)) && Bounded(State(log, after))
    requires OnTheWay(handler, initial, log, first, before, discovered, pending, limit, dismissedToo)
    requires OnTheWay(handler, initial, log, before, after, pending, still, limit, dismissedToo)
    requires (forall t | t in pending :: t in discovered) && forall t | t in still :: t in pending
    ensures OnTheWay(handler, initial, log, first, after, discovered, still, limit, dismissedToo)
  {
    hide Drain;
  }

  lemma {:induction false} FoldFails<M, E>(handler: Handler<M, E>, model: M, rows: seq<Row<E>>, n: nat)
    requires n <= |rows| && Fold(handler, model, rows[..n]).None?
    ensures Fold(handler, model, rows).None?
  {
    if n < |rows| {
      assert rows[..|rows| - 1][..n] == rows[..n];
      FoldFails(handler, model, rows[..|rows| - 1], n);
    } else {
      assert rows[..n] == rows;
    }
  }
}
