/** The transfer projections at work: handlers over an open transaction, catch-up
    batches, and the polling loop
    (examples/banking-api/src/projections/eventual-transfer-projections.ts,
    packages/core/src/projections/catch-up-projector.ts). */
module TransferProjections {
  import opened Wrappers
  import opened Aggregates
  import opened BankAccount
  import opened Transfers

  // ---------------------------------------------------------------------------
  // Handlers
  // ---------------------------------------------------------------------------

  /** A stream's events with the versions 1, 2 and so on. */
  function History<E>(es: seq<E>): (r: seq<Recorded<E>>)
    ensures Payloads(r) == es && |r| == |es|
    ensures es != [] ==> r[|r| - 1].aggregateVersion == |es|
  {
    seq(|es|, i requires 0 <= i < |es| => Recorded(es[i], i + 1))
  }

  function OnAccounts(id: string, events: seq<AccountEvent>): (r: seq<Entry>)
    ensures |r| == |events|
  {
    seq(|events|, i requires 0 <= i < |events| => OnAccount(id, events[i], true))
  }

  function OnTransactions(t: string, events: seq<TransactionEvent>): (r: seq<Entry>)
    ensures |r| == |events|
  {
    seq(|events|, i requires 0 <= i < |events| => OnTransaction(t, events[i]))
  }

  /** The streams that the rows of an open transaction extend are locked: what others
      commit leaves them as they are. */
  predicate OthersCommit(before: seq<Entry>, after: seq<Entry>, own: seq<Entry>)
  {
    before <= after && SameStreams(Whole(before), after, own)
  }

  lemma OthersCommitTwice(a: seq<Entry>, b: seq<Entry>, c: seq<Entry>, own: seq<Entry>, more: seq<Entry>)
    requires OthersCommit(a, b, own) && OthersCommit(b, c, own + more)
    ensures OthersCommit(a, c, own)
  {
    forall i | 0 <= i < |own| ensures SameStream(Whole(a), c, own[i]) {
      assert (own + more)[i] == own[i];
    }
  }

  lemma Idle(log: seq<Entry>, own: seq<Entry>)
    ensures OthersCommit(log, log, own) && GatesPass(log, Bases(|log|, |log|), [])
  {
  }

  lemma OthersCommitOn(a: seq<Entry>, b: seq<Entry>, c: seq<Entry>, own: seq<Entry>)
    requires OthersCommit(a, b, own) && OthersCommit(b, c, own)
    ensures OthersCommit(a, c, own) && c[..|b|] == b && c[..|a|] == a && c[..|c|] == c
  {
    assert own + [] == own;
    OthersCommitTwice(a, b, c, own, []);
  }

  /** The stream of a row that is written does not move under the transaction. */
  lemma LegLocked(log: seq<Entry>, after: seq<Entry>, own: seq<Entry>, e: Entry)
    requires e.OnAccount? && OthersCommit(log, after, own + [e])
    ensures |AccountEvents(after + own, e.id)| == |AccountEvents(log + own, e.id)|
    ensures |AccountEvents(after + (own + [e]), e.id)| == |AccountEvents(log + own, e.id)| + 1
  {
    assert SameStream(Whole(log), after, (own + [e])[|own|]);
    AccountConcat(log, own, e.id);
    AccountConcat(after, own, e.id);
    Extended(after + own, e);
    assert after + own + [e] == after + (own + [e]);
  }

  /** Comparing the version that was loaded with the stream's is the gate. */
  lemma LegGate(log: seq<Entry>, base: Bases, own: seq<Entry>, w: seq<Entry>)
    requires InLog(log, base) && |w| == 2 && w[0].OnAccount? && w[1].OnAccount? && w[0].id == w[1].id
    ensures GatesPass(log, base, w) <==> |AccountEvents(log[..base.accounts] + own, w[0].id)| == |AccountEvents(log + own, w[0].id)|
  {
    AccountConcat(log[..base.accounts], own, w[0].id);
    AccountConcat(log, own, w[0].id);
    assert log[..base.accounts] + [] == log[..base.accounts];
    hide AccountEvents;
    assert GatesPass(log, base, w) <==> VersionFor(Whole(log), w[0]) == VersionFor(Seen(log, base, []), w[0]) by {
      assert VersionFor(Whole(log), w[1]) == VersionFor(Whole(log), w[0]);
    }
  }

  lemma MarkGate(log: seq<Entry>, base: Bases, own: seq<Entry>, e: Entry)
    requires InLog(log, base) && e.OnTransaction?
    ensures GatesPass(log, base, [e]) <==> |TransferEvents(log[..base.transfers] + own, e.id)| == |TransferEvents(log + own, e.id)|
  {
    TransferConcat(log[..base.transfers], own, e.id);
    TransferConcat(log, own, e.id);
    assert log[..base.transfers] + [] == log[..base.transfers];
    hide TransferEvents;
    assert [e][0] == e;
  }

  /** An open transaction of a projection: what it has written, on top of what is
      committed. At any statement it sees what others have committed by then. */
  class BankTx {
    const db: BankDb
    const p: Projection
    var own: seq<Entry>

    constructor (db: BankDb, p: Projection)
      ensures this.db == db && this.p == p && own == []
    {
      this.db, this.p, own := db, p, [];
    }

    /** loadStream and loadFromHistory on a new aggregate. */
    method LoadAccount(id: string) returns (account: AccountAggregate)
      requires Inv(db.Now())
      modifies db
      ensures Went(this)
      ensures fresh(account) && fresh(account.root) && account.root.handlers == HANDLERS
      ensures account.root.state == AccountIn(db.log + own, id) && account.root.pending == []
      ensures account.root.version == |AccountEvents(db.log + own, id)|
    {
      db.Interference(p, own);
      account := new AccountAggregate(id);
      ReplayIsAccountAfter(AccountEvents(db.log + own, id));
      var ok := account.root.LoadFromHistory(History(AccountEvents(db.log + own, id)));
    }

    method LoadTransaction(t: string) returns (transaction: TransactionAggregate)
      requires Inv(db.Now())
      modifies db
      ensures Went(this)
      ensures fresh(transaction) && fresh(transaction.root) && transaction.root.handlers == TRANSACTION_HANDLERS
      ensures transaction.root.state == TransferOf(db.log + own, t) && transaction.root.pending == []
      ensures transaction.root.version == |TransferEvents(db.log + own, t)|
    {
      db.Interference(p, own);
      transaction := new TransactionAggregate(t);
      ReplayIsTransactionAfter(TransferEvents(db.log + own, t));
      var ok := transaction.root.LoadFromHistory(History(TransferEvents(db.log + own, t)));
    }

    /** append on an account stream, through the version gate. */
    method AppendAccount(id: string, expected: int, events: seq<AccountEvent>) returns (next: Option<int>)
      requires Inv(db.Now())
      modifies this, db
      ensures Went(this)
      ensures next.Some? <==> events == [] || expected == |AccountEvents(db.log + old(own), id)|
      ensures next.Some? ==> own == old(own) + OnAccounts(id, events) && next.value == expected + |events|
      ensures next.None? ==> own == old(own)
    {
      db.Interference(p, own);
      if events == [] { return Some(expected); }
      if expected != |AccountEvents(db.log + own, id)| { return None; }
      own := own + OnAccounts(id, events);
      return Some(expected + |events|);
    }

    method AppendTransaction(t: string, expected: int, events: seq<TransactionEvent>) returns (next: Option<int>)
      requires Inv(db.Now())
      modifies this, db
      ensures Went(this)
      ensures next.Some? <==> events == [] || expected == |TransferEvents(db.log + old(own), t)|
      ensures next.Some? ==> own == old(own) + OnTransactions(t, events) && next.value == expected + |events|
      ensures next.None? ==> own == old(own)
    {
      db.Interference(p, own);
      if events == [] { return Some(expected); }
      if expected != |TransferEvents(db.log + own, t)| { return None; }
      own := own + OnTransactions(t, events);
      return Some(expected + |events|);
    }

    /** The two appends of a leg: the event on the loaded version, then its mark
        on the version that the first append returned. The first append locks the
        stream, so the second one passes. */
    method AppendLeg(id: string, expected: int, events: seq<AccountEvent>, mark: AccountEvent) returns (ok: bool)
      requires |events| == 1 && Inv(db.Now())
      modifies this, db
      ensures Went(this)
      ensures ok <==> expected == |AccountEvents(db.log + old(own), id)|
      ensures ok ==> own == old(own) + [OnAccount(id, events[0], true), OnAccount(id, mark, true)]
      ensures !ok ==> own == old(own)
    {
      hide Inv, AccountEvents, SameStreams;
      ghost var before, first := own, OnAccount(id, events[0], true);
      var next := AppendAccount(id, expected, events);
      if next.None? { return false; }
      ghost var log1 := db.log;
      assert own == before + [first];
      next := AppendAccount(id, next.value, [mark]);
      OthersCommitTwice(old(db.log), log1, db.log, before, [first]);
      LegLocked(log1, db.log, before, first);
      return true;
    }
  }

  /** What one call of a transaction lets others do. */
  twostate predicate Went(tx: BankTx)
    reads tx, tx.db
  {
    Inv(tx.db.Now()) && OthersCommit(old(tx.db.log), tx.db.log, old(tx.own)) && tx.db.cps.At(tx.p) == old(tx.db.cps).At(tx.p) &&
    (tx.db.alone ==> tx.db.Now() == old(tx.db.Now()))
  }

  /** The handler has written the projection's reaction to what it loaded, unless the
      reaction is an error or a version gate does not pass. */
  twostate predicate Reacted(e: Entry, tx: BankTx, base: Bases, ok: bool)
    reads tx, tx.db
  {
    InLog(tx.db.log, base) && |old(tx.db.log)| <= base.accounts && |old(tx.db.log)| <= base.transfers &&
    var r := Reaction(tx.p, Seen(tx.db.log, base, old(tx.own)), e);
    (ok <==> r.Some? && GatesPass(tx.db.log, base, r.value)) &&
    (ok ==> tx.own == old(tx.own) + r.value)
  }

  method HandleWithdrawal(tx: BankTx, e: Entry) returns (ok: bool, ghost base: Bases)
    requires tx.p == WithdrawalHandler && Inv(tx.db.Now())
    modifies tx, tx.db
    ensures Went(tx) && Reacted(e, tx, base, ok)
  {
    hide Inv, AccountEvents, TransferEvents, SameStreams, GatesPass, AccountAfter, TransactionAfter, Failure, Completion;
    base := Bases(|tx.db.log|, |tx.db.log|);
    Idle(tx.db.log, tx.own);
    if !e.OnTransaction? || !e.change.TransactionStarted? { return true, base; }
    var t, from, amount := e.id, e.change.fromAccountId, e.change.amount;
    ghost var own, log0 := tx.own, tx.db.log;
    var account := tx.LoadAccount(from);
    ghost var log1 := tx.db.log;
    base := Bases(|log1|, |log1|);
    OthersCommitOn(log0, log1, log1, own) by { Idle(log1, own); }
    if account.root.state.balance < amount {
      var transaction := tx.LoadTransaction(t);
      ghost var log2 := tx.db.log;
      base := Bases(|log1|, |log2|);
      OthersCommitOn(log0, log1, log2, own);
      var failed := transaction.Fail();
      if failed.None? { return false, base; }
      var events := transaction.root.PullPendingEvents();
      var next := tx.AppendTransaction(t, transaction.root.version, events);
      OthersCommitOn(log0, log2, tx.db.log, own);
      OthersCommitOn(log1, log2, tx.db.log, own);
      MarkGate(tx.db.log, base, own, OnTransaction(t, failed.value));
      assert OnTransactions(t, events) == [OnTransaction(t, failed.value)];
      return next.Some?, base;
    }
    var withdrawn := account.Withdraw(amount, Some(t));
    if withdrawn.Err? { return false, base; }
    var newBalance := account.root.state.balance;
    var events := account.root.PullPendingEvents();
    var mark := WithdrawalCompleted(t, amount, newBalance);
    ok := tx.AppendLeg(from, account.root.version, events, mark);
    OthersCommitOn(log0, log1, tx.db.log, own);
    LegGate(tx.db.log, base, own, [OnAccount(from, events[0], true), OnAccount(from, mark, true)]);
  }

  method HandleDeposit(tx: BankTx, e: Entry) returns (ok: bool, ghost base: Bases)
    requires tx.p == DepositHandler && Inv(tx.db.Now())
    modifies tx, tx.db
    ensures Went(tx) && Reacted(e, tx, base, ok)
  {
    hide Inv, AccountEvents, TransferEvents, SameStreams, GatesPass, AccountAfter, TransactionAfter, Failure, Completion;
    base := Bases(|tx.db.log|, |tx.db.log|);
    Idle(tx.db.log, tx.own);
    if !e.OnAccount? || !e.event.WithdrawalCompleted? { return true, base; }
    var t, amount := e.event.transfer, e.event.amount;
    ghost var own, log0 := tx.own, tx.db.log;
    var transaction := tx.LoadTransaction(t);
    ghost var log1 := tx.db.log;
    base := Bases(|log1|, |log1|);
    OthersCommitOn(log0, log1, log1, own) by { Idle(log1, own); }
    var to := transaction.root.state.toAccountId;
    if to == "" { return false, base; }
    var account := tx.LoadAccount(to);
    ghost var log2 := tx.db.log;
    base := Bases(|log2|, |log1|);
    OthersCommitOn(log0, log1, log2, own);
    var deposited := account.Deposit(amount, Some(t));
    if deposited.Err? { return false, base; }
    var newBalance := account.root.state.balance;
    var events := account.root.PullPendingEvents();
    var mark := DepositCompleted(t, amount, newBalance);
    ok := tx.AppendLeg(to, account.root.version, events, mark);
    OthersCommitOn(log0, log2, tx.db.log, own);
    OthersCommitOn(log1, log2, tx.db.log, own);
    LegGate(tx.db.log, base, own, [OnAccount(to, events[0], true), OnAccount(to, mark, true)]);
  }

  method HandleCompletion(tx: BankTx, e: Entry) returns (ok: bool, ghost base: Bases)
    requires tx.p == CompletionHandler && Inv(tx.db.Now())
    modifies tx, tx.db
    ensures Went(tx) && Reacted(e, tx, base, ok)
  {
    hide Inv, AccountEvents, TransferEvents, SameStreams, GatesPass, AccountAfter, TransactionAfter, Failure, Completion;
    base := Bases(|tx.db.log|, |tx.db.log|);
    Idle(tx.db.log, tx.own);
    if !e.OnAccount? || !e.event.DepositCompleted? { return true, base; }
    var t := e.event.transfer;
    ghost var own, log0 := tx.own, tx.db.log;
    var transaction := tx.LoadTransaction(t);
    ghost var log1 := tx.db.log;
    base := Bases(|log1|, |log1|);
    OthersCommitOn(log0, log1, log1, own) by { Idle(log1, own); }
    var completed := transaction.Complete();
    if completed.None? { return false, base; }
    var events := transaction.root.PullPendingEvents();
    var next := tx.AppendTransaction(t, transaction.root.version, events);
    OthersCommitOn(log0, log1, tx.db.log, own);
    MarkGate(tx.db.log, base, own, OnTransaction(t, completed.value));
    assert OnTransactions(t, events) == [OnTransaction(t, completed.value)];
    return next.Some?, base;
  }

  method HandleEntry(tx: BankTx, e: Entry) returns (ok: bool, ghost base: Bases)
    requires Inv(tx.db.Now())
    modifies tx, tx.db
    ensures Went(tx) && Reacted(e, tx, base, ok)
  {
    match tx.p
    case WithdrawalHandler => ok, base := HandleWithdrawal(tx, e);
    case DepositHandler => ok, base := HandleDeposit(tx, e);
    case CompletionHandler => ok, base := HandleCompletion(tx, e);
  }

  // ---------------------------------------------------------------------------
  // The chain comes to rest
  // ---------------------------------------------------------------------------

  /** How many entries a projection has work for. */
  function Relevant(p: Projection, es: seq<Entry>): nat
  {
    if es == [] then 0 else Relevant(p, es[..|es| - 1]) + if Concern(p, es[|es| - 1]).Some? then 1 else 0
  }

  predicate InRange(s: State) { s.cps.withdrawal <= |s.log| && s.cps.deposit <= |s.log| && s.cps.completion <= |s.log| }

  lemma {:induction false} RelevantConcat(p: Projection, a: seq<Entry>, b: seq<Entry>)
    ensures Relevant(p, a + b) == Relevant(p, a) + Relevant(p, b)
  {
    if b == [] {
      assert a + b == a;
    } else {
      var n := |b| - 1;
      assert (a + b)[..|a| + n] == a + b[..n] && (a + b)[|a| + n] == b[n];
      RelevantConcat(p, a, b[..n]);
    }
  }

  lemma RelevantSplit(p: Projection, log: seq<Entry>, i: nat, r: seq<Entry>)
    requires i <= |log|
    ensures Relevant(p, (log + r)[i..]) == Relevant(p, log[i..]) + Relevant(p, r)
    ensures i < |log| ==> Relevant(p, log[i..]) == (if Concern(p, log[i]).Some? then 1 else 0) + Relevant(p, log[i + 1..])
  {
    assert (log + r)[i..] == log[i..] + r;
    RelevantConcat(p, log[i..], r);
    if i < |log| {
      assert log[i..] == [log[i]] + log[i + 1..];
      RelevantConcat(p, [log[i]], log[i + 1..]);
      assert [log[i]][..0] == [];
    }
  }

  /** What a handler writes brings less work than the handler has done. */
  lemma ReactionBrings(p: Projection, view: View, e: Entry, r: seq<Entry>)
    requires Reaction(p, view, e) == Some(r)
    ensures Concern(p, e).None? ==> r == []
    ensures |r| <= if p.CompletionHandler? then 1 else 2
    ensures Relevant(WithdrawalHandler, r) == 0
    ensures Relevant(DepositHandler, r) <= if p.WithdrawalHandler? then 1 else 0
    ensures Relevant(CompletionHandler, r) <= if p.DepositHandler? then 1 else 0
  {
    ReactionShape(p, view, e);
    if |r| == 2 { LegDecided(p, view, e); }
    hide Reaction;
    RelevantShort(WithdrawalHandler, r);
    RelevantShort(DepositHandler, r);
    RelevantShort(CompletionHandler, r);
    hide Relevant;
  }

  lemma RelevantShort(p: Projection, r: seq<Entry>)
    requires |r| <= 2
    ensures Relevant(p, r) ==
              (if |r| > 0 && Concern(p, r[0]).Some? then 1 else 0) + if |r| > 1 && Concern(p, r[1]).Some? then 1 else 0
  {
    if |r| == 2 {
      assert r[..1] == [r[0]];
      RelevantShort(p, r[..1]);
    }
  }

  /** What n relevant entries of a projection can bring, themselves included. */
  function Weighted(p: Projection, n: nat): nat
  {
    match p
    case WithdrawalHandler => 15 * n
    case DepositHandler => 9 * n
    case CompletionHandler => 3 * n
  }

  /** One projection's part of what is left to do. */
  function Share(p: Projection, log: seq<Entry>, cp: nat): nat
    requires cp <= |log|
  {
    |log| - cp + Weighted(p, Relevant(p, log[cp..]))
  }

  /** What is left to do: every entry still to be passed, and the entries that
      passing the relevant ones can bring. */
  function Potential(s: State): nat
    requires InRange(s)
  {
    Share(WithdrawalHandler, s.log, s.cps.withdrawal) + Share(DepositHandler, s.log, s.cps.deposit) +
    Share(CompletionHandler, s.log, s.cps.completion)
  }

  /** A projection's part grows by what is appended. */
  lemma ShareGrows(p: Projection, log: seq<Entry>, cp: nat, r: seq<Entry>)
    requires cp <= |log|
    ensures Share(p, log + r, cp) == Share(p, log, cp) + |r| + Weighted(p, Relevant(p, r))
  {
    RelevantSplit(p, log, cp, r);
    hide Relevant;
  }

  /** What one entry counts for in the part of a projection that has to pass it. */
  function Own(p: Projection, e: Entry): nat
  {
    1 + if Concern(p, e).Some? then Weighted(p, 1) else 0
  }

  /** A projection's part shrinks by the entry that it passes. */
  lemma ShareShrinks(p: Projection, log: seq<Entry>, cp: nat)
    requires cp < |log|
    ensures Share(p, log, cp + 1) + Own(p, log[cp]) == Share(p, log, cp)
  {
    RelevantSplit(p, log, cp, []);
    hide Relevant, Concern;
  }

  function Brought(r: seq<Entry>): nat
  {
    3 * |r| + Weighted(WithdrawalHandler, Relevant(WithdrawalHandler, r)) + Weighted(DepositHandler, Relevant(DepositHandler, r)) +
    Weighted(CompletionHandler, Relevant(CompletionHandler, r))
  }

  lemma PotentialGrows(s: State, r: seq<Entry>)
    requires InRange(s)
    ensures InRange(s.(log := s.log + r)) && Potential(s.(log := s.log + r)) == Potential(s) + Brought(r)
  {
    hide Share, Relevant, Weighted;
    ShareGrows(WithdrawalHandler, s.log, s.cps.withdrawal, r);
    ShareGrows(DepositHandler, s.log, s.cps.deposit, r);
    ShareGrows(CompletionHandler, s.log, s.cps.completion, r);
  }

  lemma PotentialShrinks(s: State, p: Projection)
    requires InRange(s) && s.cps.At(p) < |s.log|
    ensures var after := s.(cps := s.cps.Set(p, s.cps.At(p) + 1));
            InRange(after) && Potential(after) + Own(p, s.log[s.cps.At(p)]) == Potential(s)
  {
    hide Share, Own;
    ShareShrinks(p, s.log, s.cps.At(p));
  }

  /** A handler brings less than its own entry counted for. */
  lemma ReactionLight(p: Projection, view: View, e: Entry, r: seq<Entry>)
    requires Reaction(p, view, e) == Some(r)
    ensures Brought(r) < Own(p, e)
  {
    ReactionBrings(p, view, e, r);
    hide Reaction, Concern;
  }

  lemma HandlerDrains(view: View, s: State, p: Projection, r: seq<Entry>)
    requires InRange(s) && s.cps.At(p) < |s.log| && Reaction(p, view, s.log[s.cps.At(p)]) == Some(r)
    ensures var after := State(s.log + r, s.cps.Set(p, s.cps.At(p) + 1));
            InRange(after) && Potential(after) < Potential(s)
  {
    hide Reaction, Potential, Brought, Own;
    ReactionLight(p, view, s.log[s.cps.At(p)], r);
    PotentialGrows(s, r);
    PotentialShrinks(s.(log := s.log + r), p);
  }

  lemma {:induction false} BatchDrains(s: State, p: Projection, n: nat, bases: seq<Bases>, w: seq<Entry>)
    requires InRange(s) && s.cps.At(p) + n <= |s.log| && |bases| == n && AllInLog(s.log, 0, bases)
    requires Batch(p, s.log, Page(s, p, n), bases) == Some(w)
    ensures var after := State(s.log + w, s.cps.Set(p, s.cps.At(p) + n));
            InRange(after) && Potential(after) + n <= Potential(s)
  {
    hide Potential, Reaction, Batch, GatesPass, Page, Seen;
    if n == 0 {
      EmptyBatch(s, p, bases, w);
    } else {
      var before, r := BatchUnfold(s, p, n, bases, w);
      BatchDrains(s, p, n - 1, bases[..n - 1], before);
      var mid := State(s.log + before, s.cps.Set(p, s.cps.At(p) + (n - 1)));
      assert mid.log[s.cps.At(p) + n - 1] == s.log[s.cps.At(p) + n - 1];
      HandlerDrains(Seen(s.log, bases[n - 1], before), mid, p, r);
      assert mid.log + r == s.log + w;
    }
  }

  // ---------------------------------------------------------------------------
  // When a handler throws
  // ---------------------------------------------------------------------------

  /** A withdrawn amount that cannot be paid in: the transfer names no account to pay
      it to, or that account is closed. */
  predicate Undeliverable(log: seq<Entry>, e: Entry)
  {
    e.OnAccount? && e.event.WithdrawalCompleted? &&
    var to := TransferOf(log, e.event.transfer).toAccountId;
    to == "" || AccountIn(log, to).isClosed
  }

  /** A transfer is failed or completed only by an event that says so. */
  lemma {:induction false} StatusCounted(log: seq<Entry>, t: string)
    ensures TransferOf(log, t).status == InFailed ==> Count(log, Failed, t) > 0
    ensures TransferOf(log, t).status == InCompleted ==> Count(log, Completed, t) > 0
  {
    if log != [] {
      var init, last := log[..|log| - 1], log[|log| - 1];
      StatusCounted(init, t);
      var es := TransferEvents(init, t);
      if last.OnTransaction? && last.id == t {
        assert (es + [last.change])[..|es|] == es;
      } else {
        assert es + [] == es;
      }
    }
  }

  /** What a projection has still to pass is neither failed nor completed. */
  lemma StillPending(s: State, p: Projection, t: string)
    requires Inv(s) && s.cps.At(p) < |s.log| && !p.DepositHandler? && Concern(p, s.log[s.cps.At(p)]) == Some(t)
    ensures Failure(TransferOf(s.log, t)).Some? && Completion(TransferOf(s.log, t)).Some?
  {
    assert Flowing(s.log, s.cps, t);
    StatusCounted(s.log, t);
    CountNext(s.log, s.cps.At(p));
    CountPrefix(s.log, s.cps.At(p) + 1, if p.WithdrawalHandler? then Started else DepositedMark, t);
    CountPrefix(s.log, s.cps.withdrawal, Started, t);
    CountPrefix(s.log, s.cps.deposit, WithdrawnMark, t);
    CountPrefix(s.log, s.cps.completion, DepositedMark, t);
    hide Count, TransferOf, Inv;
  }

  /** The withdrawal of a started transfer goes through if the balance is there. */
  lemma WithdrawalPasses(log: seq<Entry>, i: nat)
    requires WellFormed(log) && i < |log| && Concern(WithdrawalHandler, log[i]).Some?
    ensures var account := AccountIn(log, log[i].change.fromAccountId);
            account.balance >= log[i].change.amount ==> Decide(account, Withdraw(log[i].change.amount, Some(log[i].id))).Ok?
  {
    AmountPositive(log, i, log[i].id);
    StreamsAreLedgers(log, log[i].change.fromAccountId);
    OpenUnlessEmpty(AccountEvents(log, log[i].change.fromAccountId));
    hide WellFormed, Ledger, AccountAfter, AccountEvents, OpensAtZero;
  }

  lemma {:induction false} StartedPositive(log: seq<Entry>, t: string)
    requires WellFormed(log) && TransferEvents(log, t) != []
    ensures TransferOf(log, t).amount > 0.0
  {
    if log != [] {
      var init, last := log[..|log| - 1], log[|log| - 1];
      var es := TransferEvents(init, t);
      assert log == init + [last] && Admissible(init, last);
      if es != [] {
        StartedPositive(init, t);
        hide WellFormed, TransferOf, Admissible, TransferEvents;
        TermsStep(init, last, t);
      } else {
        assert (es + [last.change])[..0] == [];
      }
    }
  }

  lemma DepositPasses(log: seq<Entry>, i: nat)
    requires WellFormed(log) && i < |log| && Concern(DepositHandler, log[i]).Some?
    ensures Reaction(DepositHandler, Whole(log), log[i]).None? <==> Undeliverable(log, log[i])
  {
    ConcernStarted(log, i, DepositHandler);
    StartedPositive(log, log[i].event.transfer);
    hide WellFormed, AccountEvents, TransferEvents, AccountAfter, TransactionAfter;
  }

  /** On the current log the withdrawal and completion handlers never throw, and the
      deposit handler throws exactly for what cannot be paid in. */
  lemma ThrowsExactly(s: State, p: Projection)
    requires Inv(s) && s.cps.At(p) < |s.log|
    ensures Reaction(p, Whole(s.log), s.log[s.cps.At(p)]).None? <==> p.DepositHandler? && Undeliverable(s.log, s.log[s.cps.At(p)])
  {
    var e := s.log[s.cps.At(p)];
    InvMeans(s);
    match p
    case WithdrawalHandler =>
      if Concern(p, e).Some? {
        StillPending(s, p, e.id);
        WithdrawalPasses(s.log, s.cps.withdrawal);
        hide Inv, WellFormed, AccountIn, TransferOf, Decide, Failure;
      }
    case DepositHandler => if Concern(p, e).Some? { DepositPasses(s.log, s.cps.deposit); }
    case CompletionHandler =>
      if Concern(p, e).Some? {
        StillPending(s, p, e.event.transfer);
        hide Inv, WellFormed, TransferOf, Completion;
      }
  }

  /** What cannot be paid in stays so, and becomes so only by a close. */
  lemma Undelivered(log: seq<Entry>, more: seq<Entry>, i: nat)
    requires WellFormed(log) && WellFormed(log + more) && i < |log|
    requires forall id :: AccountIn(log + more, id).isClosed <==> AccountIn(log, id).isClosed
    ensures Undeliverable(log + more, log[i]) <==> Undeliverable(log, log[i])
  {
    if log[i].OnAccount? && log[i].event.WithdrawalCompleted? {
      var t := log[i].event.transfer;
      ConcernStarted(log, i, DepositHandler);
      assert (log + more)[..|log|] == log;
      TermsStable(log + more, |log|, t);
    }
    hide WellFormed, AccountIn, TransferOf;
  }

  /** Handlers close no account. */
  lemma LegKeepsOpen(log: seq<Entry>, p: Projection, view: View, e: Entry, id: string)
    requires Reaction(p, view, e).Some?
    ensures AccountIn(log + Reaction(p, view, e).value, id).isClosed <==> AccountIn(log, id).isClosed
  {
    var r := Reaction(p, view, e).value;
    ReactionShape(p, view, e);
    if |r| == 2 { LegDecided(p, view, e); }
    AccountConcat(log, r, id);
    hide Reaction, AccountEvents, AccountAfter;
    ShortEvents(r, id);
    var es := AccountEvents(log, id);
    if AccountEvents(r, id) == [] {
      assert es + AccountEvents(r, id) == es;
    } else {
      TwoMore(es, r[0].event, r[1].event);
    }
  }

  lemma TwoMore(es: seq<AccountEvent>, a: AccountEvent, b: AccountEvent)
    ensures AccountAfter(es + [a, b]) == Handle(Handle(AccountAfter(es), a), b)
  {
    hide Handle;
    assert (es + [a, b])[..|es| + 1] == es + [a] && (es + [a])[..|es|] == es;
  }

  lemma ShortEvents(r: seq<Entry>, id: string)
    requires |r| <= 2 && (|r| == 2 ==> r[0].OnAccount? && r[1].OnAccount? && r[0].id == r[1].id) && (|r| == 1 ==> r[0].OnTransaction?)
    ensures AccountEvents(r, id) == if |r| == 2 && r[0].id == id then [r[0].event, r[1].event] else []
  {
    if |r| == 2 {
      assert r[..1] == [r[0]] && [r[0]][..0] == [];
      assert AccountEvents([r[0]], id) == if r[0].id == id then [r[0].event] else [];
    } else if |r| == 1 {
      assert r[..0] == [];
    }
  }

  /** A batch closes no account, and only the withdrawal projection marks a
      withdrawal as completed. */
  lemma {:induction false} BatchKeepsOpen(s: State, p: Projection, n: nat, bases: seq<Bases>, w: seq<Entry>)
    requires s.cps.At(p) + n <= |s.log| && |bases| == n && AllInLog(s.log, 0, bases)
    requires Batch(p, s.log, Page(s, p, n), bases) == Some(w)
    ensures forall id :: AccountIn(s.log + w, id).isClosed <==> AccountIn(s.log, id).isClosed
    ensures !p.WithdrawalHandler? ==> forall i | 0 <= i < |w| :: Concern(DepositHandler, w[i]).None?
  {
    hide Reaction, Batch, GatesPass, AccountIn, Seen, Page, Concern;
    if n == 0 {
      EmptyBatch(s, p, bases, w);
    } else {
      var before, r := BatchUnfold(s, p, n, bases, w);
      BatchKeepsOpen(s, p, n - 1, bases[..n - 1], before);
      var view, e := Seen(s.log, bases[n - 1], before), s.log[s.cps.At(p) + n - 1];
      assert s.log + w == s.log + before + r;
      forall id ensures AccountIn(s.log + w, id).isClosed <==> AccountIn(s.log, id).isClosed {
        LegKeepsOpen(s.log + before, p, view, e, id);
      }
      NoWithdrawalMark(p, view, e, r);
    }
  }

  lemma NoWithdrawalMark(p: Projection, view: View, e: Entry, r: seq<Entry>)
    requires Reaction(p, view, e) == Some(r)
    ensures !p.WithdrawalHandler? ==> forall i | 0 <= i < |r| :: Concern(DepositHandler, r[i]).None?
  {
    ReactionShape(p, view, e);
    if |r| == 2 { LegDecided(p, view, e); }
    hide Reaction;
  }

  /** Everything was loaded from the log as it is now. */
  predicate AllCurrent(log: seq<Entry>, bases: seq<Bases>)
  {
    forall i | 0 <= i < |bases| :: bases[i] == Bases(|log|, |log|)
  }

  /** Something among the next n entries of the deposit projection cannot be paid in. */
  predicate BlockedWithin(s: State, p: Projection, n: nat)
    requires s.cps.At(p) + n <= |s.log|
  {
    p.DepositHandler? && exists i | s.cps.At(p) <= i < s.cps.At(p) + n :: Undeliverable(s.log, s.log[i])
  }

  /** A batch with the log to itself is rolled back exactly for a deposit that cannot
      be paid in. */
  lemma {:induction false} BatchFailsExactly(s: State, p: Projection, n: nat, bases: seq<Bases>)
    requires Inv(s) && s.cps.At(p) + n <= |s.log| && |bases| == n && AllInLog(s.log, 0, bases) && AllCurrent(s.log, bases)
    ensures Batch(p, s.log, Page(s, p, n), bases).None? <==> BlockedWithin(s, p, n)
  {
    hide *;
    if n == 0 {
      NothingBlocked(s, p, bases);
    } else {
      FewerBases(s.log, n, bases);
      BatchFailsExactly(s, p, n - 1, bases[..n - 1]);
      BlockedNext(s, p, n);
      BatchLast(s, p, n, bases);
      if Batch(p, s.log, Page(s, p, n - 1), bases[..n - 1]).Some? {
        var before := Batch(p, s.log, Page(s, p, n - 1), bases[..n - 1]).value;
        LastThrows(s, p, n - 1, bases[..n - 1], before);
      }
    }
  }

  lemma NothingBlocked(s: State, p: Projection, bases: seq<Bases>)
    requires s.cps.At(p) <= |s.log| && bases == []
    ensures AllInLog(s.log, 0, bases) && Batch(p, s.log, Page(s, p, 0), bases) == Some([]) && !BlockedWithin(s, p, 0) && s.log + [] == s.log
  {
    hide Reaction, GatesPass;
  }

  lemma FewerBases(log: seq<Entry>, n: nat, bases: seq<Bases>)
    requires 0 < n == |bases| && AllInLog(log, 0, bases) && AllCurrent(log, bases)
    ensures AllInLog(log, 0, bases[..n - 1]) && AllCurrent(log, bases[..n - 1])
  {
  }

  lemma BlockedNext(s: State, p: Projection, n: nat)
    requires 0 < n && s.cps.At(p) + n <= |s.log|
    ensures BlockedWithin(s, p, n) <==>
              BlockedWithin(s, p, n - 1) || (p.DepositHandler? && Undeliverable(s.log, s.log[s.cps.At(p) + n - 1]))
  {
    hide Undeliverable;
  }

  /** The last handler of a batch with the log to itself sees the log and the writes
      before its own, and its gates pass. */
  lemma BatchLast(s: State, p: Projection, n: nat, bases: seq<Bases>)
    requires 0 < n && s.cps.At(p) + n <= |s.log| && |bases| == n && AllInLog(s.log, 0, bases) && AllCurrent(s.log, bases)
    requires AllInLog(s.log, 0, bases[..n - 1])
    ensures var before := Batch(p, s.log, Page(s, p, n - 1), bases[..n - 1]);
            Batch(p, s.log, Page(s, p, n), bases) ==
              if before.None? || Reaction(p, Whole(s.log + before.value), s.log[s.cps.At(p) + n - 1]).None? then None
              else Some(before.value + Reaction(p, Whole(s.log + before.value), s.log[s.cps.At(p) + n - 1]).value)
  {
    hide Reaction, VersionFor;
    SliceInit(s.log, s.cps.At(p), n);
    assert Page(s, p, n)[..n - 1] == Page(s, p, n - 1);
    assert s.log[..|s.log|] == s.log && s.log + [] == s.log;
  }

  lemma LastThrows(s: State, p: Projection, n: nat, bases: seq<Bases>, before: seq<Entry>)
    requires Inv(s) && s.cps.At(p) + n < |s.log| && |bases| == n && AllInLog(s.log, 0, bases) && AllCurrent(s.log, bases)
    requires Batch(p, s.log, Page(s, p, n), bases) == Some(before)
    ensures Reaction(p, Whole(s.log + before), s.log[s.cps.At(p) + n]).None? <==>
              p.DepositHandler? && Undeliverable(s.log, s.log[s.cps.At(p) + n])
  {
    hide Inv, Batch, Reaction, AccountIn, Undeliverable, WellFormed;
    BatchKeepsInv(s, p, n, bases, before);
    BatchKeepsOpen(s, p, n, bases, before);
    var mid := State(s.log + before, s.cps.Set(p, s.cps.At(p) + n));
    assert mid.log[mid.cps.At(p)] == s.log[s.cps.At(p) + n];
    ThrowsExactly(mid, p);
    InvMeans(s);
    InvMeans(mid);
    Undelivered(s.log, before, s.cps.At(p) + n);
  }

  // ---------------------------------------------------------------------------
  // Batches, projections, polling
  // ---------------------------------------------------------------------------

  /** The end of the page a batch reads. */
  function PageEnd(s: State, p: Projection, batchSize: nat): nat
  {
    if s.cps.At(p) + batchSize <= |s.log| then s.cps.At(p) + batchSize else |s.log|
  }

  /** What a batch has written stands while others commit. */
  lemma {:induction false} BatchGrows(p: Projection, log: seq<Entry>, after: seq<Entry>, page: seq<Entry>, bases: seq<Bases>, w: seq<Entry>)
    requires |bases| == |page| && AllInLog(log, 0, bases) && OthersCommit(log, after, w)
    requires Batch(p, log, page, bases) == Some(w)
    ensures AllInLog(after, 0, bases) && Batch(p, after, page, bases) == Some(w)
  {
    if page != [] {
      var n := |page| - 1;
      hide Reaction, GatesPass;
      var before := Batch(p, log, page[..n], bases[..n]).value;
      var r := Reaction(p, Seen(log, bases[n], before), page[n]).value;
      assert Seen(after, bases[n], before) == Seen(log, bases[n], before);
      hide Seen, SameStreams;
      StandsSplit(log, after, before, r);
      BatchGrows(p, log, after, page[..n], bases[..n], before);
      GatesStand(log, after, bases[n], r);
    }
  }

  lemma StandsSplit(log: seq<Entry>, after: seq<Entry>, before: seq<Entry>, r: seq<Entry>)
    requires OthersCommit(log, after, before + r)
    ensures OthersCommit(log, after, before) && OthersCommit(log, after, r)
  {
    hide SameStream;
    forall i | 0 <= i < |before| ensures SameStream(Whole(log), after, before[i]) { assert (before + r)[i] == before[i]; }
    forall i | 0 <= i < |r| ensures SameStream(Whole(log), after, r[i]) { assert (before + r)[|before| + i] == r[i]; }
  }

  lemma GatesStand(log: seq<Entry>, after: seq<Entry>, base: Bases, r: seq<Entry>)
    requires InLog(log, base) && OthersCommit(log, after, r)
    ensures GatesPass(after, base, r) <==> GatesPass(log, base, r)
  {
    hide AccountEvents, TransferEvents;
    assert Seen(after, base, []) == Seen(log, base, []);
    forall i | 0 <= i < |r| ensures VersionFor(Whole(after), r[i]) == VersionFor(Whole(log), r[i]) { assert SameStream(Whole(log), after, r[i]); }
  }

  lemma FitsLater(log0: seq<Entry>, log1: seq<Entry>, s: State, p: Projection, upto: nat, bases: seq<Bases>, page: seq<Entry>)
    requires log0 <= log1 <= s.log && AllInLog(log1, |log0|, bases)
    requires s.cps.At(p) <= upto <= |log0| && |bases| == |page| && page == log0[s.cps.At(p)..upto]
    ensures BasesFit(s, p, upto, bases) && AllInLog(log1, 0, bases) && page == s.log[s.cps.At(p)..upto]
  {
  }

  /** A page read from log0 and handled by log1 commits on what there is then. */
  lemma CommitsBatch(log0: seq<Entry>, log1: seq<Entry>, s: State, p: Projection, upto: nat, bases: seq<Bases>, page: seq<Entry>, own: seq<Entry>)
    requires Inv(s) && log0 <= log1 && OthersCommit(log1, s.log, own) && AllInLog(log1, |log0|, bases)
    requires s.cps.At(p) <= upto <= |log0| && |bases| == |page| && page == log0[s.cps.At(p)..upto]
    requires AllInLog(log1, 0, bases) ==> Batch(p, log1, page, bases) == Some(own)
    ensures Writes(s, CatchUp(p, upto, bases)) == Some(own)
    ensures Next(s, CatchUp(p, upto, bases)) == State(s.log + own, s.cps.Set(p, upto))
    ensures Inv(State(s.log + own, s.cps.Set(p, upto)))
  {
    hide Inv, Batch, BasesFit, AllInLog, SameStreams;
    FitsLater(log0, log1, s, p, upto, bases, page);
    BatchGrows(p, log1, s.log, page, bases, own);
    StepKeepsInv(s, CatchUp(p, upto, bases));
  }

  /** The first handlers of a page have written own. */
  predicate Handled(p: Projection, first: nat, log: seq<Entry>, page: seq<Entry>, bases: seq<Bases>, own: seq<Entry>)
  {
    |bases| <= |page| && AllInLog(log, first, bases) && AllInLog(log, 0, bases) && Batch(p, log, page[..|bases|], bases) == Some(own)
  }

  /** The handlers of a page before the last one that ran succeeded; the last one
      threw, or a version gate did not pass on what it had loaded. */
  predicate Stopped(p: Projection, log: seq<Entry>, page: seq<Entry>, bases: seq<Bases>)
  {
    0 < |bases| <= |page| && AllInLog(log, 0, bases) &&
    var n := |bases| - 1;
    AllInLog(log, 0, bases[..n]) &&
    var before := Batch(p, log, page[..n], bases[..n]);
    before.Some? &&
    var r := Reaction(p, Seen(log, bases[n], before.value), page[n]);
    r.None? || !GatesPass(log, bases[n], r.value)
  }

  lemma SliceTake<T>(q: seq<T>, lo: nat, hi: nat, k: nat)
    requires lo <= hi <= |q| && k <= hi - lo
    ensures q[lo..hi][..k] == q[lo..lo + k]
  {
  }

  /** Something that the deposit projection has to pass cannot be paid in. */
  predicate Blocked(s: State)
  {
    exists i | s.cps.deposit <= i < |s.log| :: Undeliverable(s.log, s.log[i])
  }

  /** A batch of another projection than the withdrawals neither blocks the deposit
      projection nor unblocks it. */
  lemma StaysBlocked(s: State, p: Projection, batchSize: nat, bases: seq<Bases>, t: State)
    requires Inv(s) && Inv(t) && s.cps.At(p) <= PageEnd(s, p, batchSize) && !p.WithdrawalHandler?
    requires Writes(s, CatchUp(p, PageEnd(s, p, batchSize), bases)).Some? && t == Next(s, CatchUp(p, PageEnd(s, p, batchSize), bases))
    requires !BlockedWithin(s, p, PageEnd(s, p, batchSize) - s.cps.At(p))
    ensures Blocked(t) <==> Blocked(s)
  {
    hide *;
    var n := PageEnd(s, p, batchSize) - s.cps.At(p);
    var w := CatchUpMeans(s, p, n, bases);
    InvMeans(s);
    InvMeans(t);
    BatchKeepsOpen(s, p, n, bases, w);
    forall i | 0 <= i < |s.log| ensures Undeliverable(s.log + w, s.log[i]) <==> Undeliverable(s.log, s.log[i]) { Undelivered(s.log, w, i); }
    SameBlocked(s, p, n, w);
  }

  /** What a catch-up step does that goes through. */
  lemma CatchUpMeans(s: State, p: Projection, n: nat, bases: seq<Bases>) returns (w: seq<Entry>)
    requires Writes(s, CatchUp(p, s.cps.At(p) + n, bases)).Some?
    ensures Writes(s, CatchUp(p, s.cps.At(p) + n, bases)) == Some(w)
    ensures s.cps.At(p) + n <= |s.log| && |bases| == n && AllInLog(s.log, s.cps.At(p) + n, bases) && AllInLog(s.log, 0, bases)
    ensures Batch(p, s.log, Page(s, p, n), bases) == Some(w)
    ensures Next(s, CatchUp(p, s.cps.At(p) + n, bases)) == State(s.log + w, s.cps.Set(p, s.cps.At(p) + n))
  {
    hide Batch;
    w := Writes(s, CatchUp(p, s.cps.At(p) + n, bases)).value;
  }

  lemma SameBlocked(s: State, p: Projection, n: nat, w: seq<Entry>)
    requires s.cps.At(p) + n <= |s.log| && !BlockedWithin(s, p, n)
    requires forall i | 0 <= i < |s.log| :: Undeliverable(s.log + w, s.log[i]) <==> Undeliverable(s.log, s.log[i])
    requires forall i | 0 <= i < |w| :: Concern(DepositHandler, w[i]).None?
    ensures Blocked(State(s.log + w, s.cps.Set(p, s.cps.At(p) + n))) <==> Blocked(s)
  {
    var t := State(s.log + w, s.cps.Set(p, s.cps.At(p) + n));
    forall i | 0 <= i < |t.log| ensures Undeliverable(t.log, t.log[i]) <==> i < |s.log| && Undeliverable(s.log, s.log[i]) {
      if i >= |s.log| {
        assert t.log[i] == w[i - |s.log|];
        Delivered(t.log, i);
      }
    }
    hide Undeliverable, Concern;
    if Blocked(s) {
      var i :| s.cps.deposit <= i < |s.log| && Undeliverable(s.log, s.log[i]);
      assert Undeliverable(t.log, t.log[i]);
    }
  }

  /** Nothing follows the close of an account. */
  lemma {:induction false} ClosedStays(log: seq<Entry>, n: nat, id: string)
    requires WellFormed(log) && n <= |log| && AccountIn(log[..n], id).isClosed
    ensures AccountEvents(log, id) == AccountEvents(log[..n], id)
  {
    hide Legal;
    if n < |log| {
      var init, last := log[..|log| - 1], log[|log| - 1];
      assert init[..n] == log[..n];
      ClosedStays(init, n, id);
      assert last.OnAccount? ==> !AccountIn(init, last.id).isClosed by { LegalIsOpen(init, last); }
    } else {
      assert log[..n] == log;
    }
  }

  lemma LegalIsOpen(log: seq<Entry>, e: Entry)
    requires Admissible(log, e)
    ensures e.OnAccount? ==> !AccountIn(log, e.id).isClosed
  {
  }

  lemma UndeliverableStays(log: seq<Entry>, more: seq<Entry>, i: nat)
    requires WellFormed(log) && WellFormed(log + more) && i < |log| && Undeliverable(log, log[i])
    ensures Undeliverable(log + more, log[i])
  {
    var t := log[i].event.transfer;
    ConcernStarted(log, i, DepositHandler);
    assert (log + more)[..|log|] == log;
    TermsStable(log + more, |log|, t);
    var to := TransferOf(log, t).toAccountId;
    if AccountIn(log, to).isClosed { ClosedStays(log + more, |log|, to); }
    hide WellFormed, AccountEvents, AccountAfter, TransferOf;
  }

  lemma DepositWasPossible(view: View, cur: seq<Entry>, e: Entry, r: seq<Entry>)
    requires Reaction(DepositHandler, view, e) == Some(r) && SameStreams(view, cur, r)
    requires Concern(DepositHandler, e).Some? ==>
               SameTerms(TransferOf(view.transfers, Concern(DepositHandler, e).value), TransferOf(cur, Concern(DepositHandler, e).value))
    ensures !Undeliverable(cur, e)
  {
    hide AccountAfter, AccountEvents, TransferOf;
    if Concern(DepositHandler, e).Some? { assert SameStream(view, cur, r[0]); }
  }

  /** What the deposit projection passes, however old the log that it has read,
      could be paid in when it was passed. */
  lemma {:induction false} PassedDeliverable(s: State, p: Projection, n: nat, bases: seq<Bases>, w: seq<Entry>)
    requires Inv(s) && p.DepositHandler? && s.cps.At(p) + n <= |s.log| && |bases| == n
    requires AllInLog(s.log, s.cps.At(p) + n, bases) && AllInLog(s.log, 0, bases)
    requires Batch(p, s.log, Page(s, p, n), bases) == Some(w)
    ensures !BlockedWithin(s, p, n)
  {
    hide *;
    if n == 0 {
      NothingBlocked(s, p, bases);
    } else {
      var i := s.cps.At(p) + n - 1;
      LastBase(s.log, s.cps.At(p) + n, n, bases);
      var before, r := BatchUnfold(s, p, n, bases, w);
      PassedDeliverable(s, p, n - 1, bases[..n - 1], before);
      BlockedNext(s, p, n);
      GatesMeanSame(s.log, bases[n - 1], before, r);
      BatchKeepsInv(s, p, n - 1, bases[..n - 1], before);
      BatchTerms(s, bases[n - 1], i, p, Page(s, p, n - 1), bases[..n - 1], before);
      DepositWasPossible(Seen(s.log, bases[n - 1], before), s.log + before, s.log[i], r);
      InvMeans(s);
      InvMeans(State(s.log + before, s.cps.Set(p, i)));
      if Undeliverable(s.log, s.log[i]) { UndeliverableStays(s.log, before, i); }
    }
  }

  /** Once blocked, the deposit projection stays blocked, whatever anyone does. */
  lemma BlockedForever(s: State, step: Step)
    requires Inv(s) && Blocked(s)
    ensures Blocked(Next(s, step))
  {
    assert Writes(s, step).None? ==> Next(s, step) == s by { hide Writes; }
    hide *;
    if Writes(s, step).Some? {
      var w, t := Writes(s, step).value, Next(s, step);
      StepKeepsInv(s, step);
      InvMeans(s);
      InvMeans(t);
      NextMeans(s, step);
      var i := BlockedAt(s);
      if step.CatchUp? && step.p.DepositHandler? {
        PassedNotBlocked(s, step.upto, step.bases, i);
      }
      UndeliverableStays(s.log, w, i);
      StillBlocked(t, i, s.log + w, s.log[i]);
    }
  }

  lemma NextMeans(s: State, step: Step)
    requires Writes(s, step).Some?
    ensures Next(s, step).log == s.log + Writes(s, step).value
    ensures Next(s, step).cps.deposit == if step.CatchUp? && step.p.DepositHandler? then step.upto else s.cps.deposit
  {
    hide Writes;
  }

  lemma BlockedAt(s: State) returns (i: nat)
    requires Blocked(s)
    ensures s.cps.deposit <= i < |s.log| && Undeliverable(s.log, s.log[i])
  {
    hide Undeliverable;
    i :| s.cps.deposit <= i < |s.log| && Undeliverable(s.log, s.log[i]);
  }

  lemma StillBlocked(t: State, i: nat, log: seq<Entry>, e: Entry)
    requires t.log == log && t.cps.deposit <= i < |log| && log[i] == e && Undeliverable(log, e)
    ensures Blocked(t)
  {
    hide Undeliverable;
  }

  lemma PassedNotBlocked(s: State, upto: nat, bases: seq<Bases>, i: nat)
    requires Inv(s) && Writes(s, CatchUp(DepositHandler, upto, bases)).Some?
    requires s.cps.deposit <= i < |s.log| && Undeliverable(s.log, s.log[i])
    ensures upto <= i
  {
    assert s.cps.At(DepositHandler) == s.cps.deposit <= upto by { hide Batch; }
    var n := upto - s.cps.deposit;
    hide Writes, Next, Inv, Undeliverable;
    var w := CatchUpMeans(s, DepositHandler, n, bases);
    PassedDeliverable(s, DepositHandler, n, bases, w);
  }

  /** In any run: nothing unblocks the deposit projection. */
  lemma {:induction false} OnceBlocked(steps: seq<Step>, k: nat)
    requires k <= |steps| && Blocked(After(steps[..k]))
    ensures Blocked(After(steps))
  {
    hide Blocked, Next;
    if k == |steps| {
      assert steps[..k] == steps;
    } else {
      var init := steps[..|steps| - 1];
      assert init[..k] == steps[..k];
      OnceBlocked(init, k);
      RunKeepsInv(init);
      hide Inv;
      BlockedForever(After(init), steps[|steps| - 1]);
    }
  }

  /** Closing an empty account that a withdrawn amount is still to be paid to goes
      through, and blocks. */
  lemma CloseBlocks(s: State, i: nat, id: string, reason: string)
    requires Inv(s) && s.cps.deposit <= i < |s.log| && Concern(DepositHandler, s.log[i]).Some?
    requires TransferOf(s.log, s.log[i].event.transfer).toAccountId == id
    requires AccountIn(s.log, id).balance == 0.0 && !AccountIn(s.log, id).isClosed
    ensures Blocked(Next(s, AccountCommand(|s.log|, id, Close(reason))))
  {
    var close := OnAccount(id, AccountClosed(reason), false);
    assert s.cps.deposit <= i < |s.log|;
    CloseGoesThrough(s, id, reason);
    ClosedBy(s.log, id, reason);
    hide *;
    assert (s.log + [close])[i] == s.log[i];
    NowUndeliverable(s.log, close, s.log[i], id);
    StillBlocked(State(s.log + [close], s.cps), i, s.log + [close], s.log[i]);
  }

  lemma CloseGoesThrough(s: State, id: string, reason: string)
    requires AccountIn(s.log, id).balance == 0.0 && !AccountIn(s.log, id).isClosed
    ensures Next(s, AccountCommand(|s.log|, id, Close(reason))) == State(s.log + [OnAccount(id, AccountClosed(reason), false)], s.cps)
  {
    assert s.log[..|s.log|] == s.log && s.log + [] == s.log;
    hide AccountIn, AccountEvents, TransferEvents;
  }

  lemma ClosedBy(log: seq<Entry>, id: string, reason: string)
    ensures AccountIn(log + [OnAccount(id, AccountClosed(reason), false)], id).isClosed
  {
    var close := OnAccount(id, AccountClosed(reason), false);
    Extended(log, close);
    var es := AccountEvents(log, id);
    hide AccountEvents;
    assert (es + [close.event])[..|es|] == es;
  }

  lemma NowUndeliverable(log: seq<Entry>, close: Entry, e: Entry, id: string)
    requires Concern(DepositHandler, e).Some? && TransferOf(log, e.event.transfer).toAccountId == id
    requires close.OnAccount? && AccountIn(log + [close], id).isClosed
    ensures Undeliverable(log + [close], e)
  {
    Extended(log, close);
    hide AccountIn, TransferEvents;
    assert TransferEvents(log, e.event.transfer) + [] == TransferEvents(log, e.event.transfer);
  }

  lemma AtTheEnd(s: State, p: Projection)
    requires s.cps.At(p) == |s.log|
    ensures p.DepositHandler? ==> !Blocked(s)
  {
  }

  lemma BlockedSomewhere(s: State, p: Projection, batchSize: nat)
    requires s.cps.At(p) <= |s.log| && BlockedWithin(s, p, PageEnd(s, p, batchSize) - s.cps.At(p))
    ensures p.DepositHandler? && Blocked(s)
  {
    hide Undeliverable;
  }

  lemma Delivered(log: seq<Entry>, i: nat)
    requires i < |log| && Concern(DepositHandler, log[i]).None?
    ensures !Undeliverable(log, log[i])
  {
  }

  lemma SameSlice(a: seq<Entry>, b: seq<Entry>, lo: nat, hi: nat)
    requires a <= b && lo <= hi <= |a|
    ensures a[lo..hi] == b[lo..hi]
  {
  }

  /** A page that was handled with the log to itself, by all its handlers or up to
      the one that failed. */
  lemma AloneFailsExactly(s: State, p: Projection, upto: nat, page: seq<Entry>, bases: seq<Bases>, handled: bool)
    requires Inv(s) && s.cps.At(p) <= upto <= |s.log| && page == s.log[s.cps.At(p)..upto]
    requires |bases| <= |page| && (handled ==> |bases| == |page|) && AllInLog(s.log, |s.log|, bases) && AllInLog(s.log, 0, bases)
    requires handled <==> Batch(p, s.log, page[..|bases|], bases).Some?
    ensures handled <==> !BlockedWithin(s, p, upto - s.cps.At(p))
  {
    assert AllCurrent(s.log, bases);
    hide Inv, Batch, Undeliverable, AllInLog, AllCurrent;
    assert page[..|bases|] == Page(s, p, |bases|) by { hide *; SliceTake(s.log, s.cps.At(p), upto, |bases|); }
    hide Page;
    BatchFailsExactly(s, p, |bases|, bases);
  }

  datatype BatchResult = Worked | NothingPending | RolledBack

  class BankDb {
    var log: seq<Entry>
    var cps: Checkpoints
    /** No other writer is at work. */
    const alone: bool

    constructor (alone: bool)
      ensures Now() == INITIAL && this.alone == alone
    {
      log, cps, this.alone := [], Checkpoints(0, 0, 0), alone;
    }

    function Now(): State
      reads this
    {
      State(log, cps)
    }

    /** Commits of other writers, while a transaction of projection p has written its
        own rows; this projection has no other live batch. Callers may rely on no
        more than the contract. */
    method Interference(p: Projection, own: seq<Entry>)
      requires Inv(Now())
      modifies this
      ensures Inv(Now()) && OthersCommit(old(log), log, own) && cps.At(p) == old(cps).At(p)
      ensures alone ==> Now() == old(Now())
    {
    }

    /** processTenantBatch: the handlers of a page append in one transaction, which is
        committed if every handler succeeds and every version gate passes. */
    method ProcessBatch(p: Projection, batchSize: nat) returns (r: BatchResult, ghost others: State, ghost bases: seq<Bases>)
      requires Inv(Now()) && batchSize > 0
      modifies this
      ensures Inv(Now()) && Inv(others) && old(log) <= others.log <= log && others.cps.At(p) == old(cps).At(p)
      ensures r.NothingPending? ==> Now() == others == old(Now()) && cps.At(p) == |log|
      ensures r.RolledBack? ==>
                Now() == others && Stopped(p, log, log[old(cps).At(p)..PageEnd(old(Now()), p, batchSize)], bases)
      ensures r.Worked? ==>
                var upto := PageEnd(old(Now()), p, batchSize);
                old(cps).At(p) < upto && Writes(others, CatchUp(p, upto, bases)).Some? &&
                Now() == Next(others, CatchUp(p, upto, bases))
      ensures alone ==> others == old(Now())
      ensures alone ==> (r.RolledBack? <==> BlockedWithin(old(Now()), p, PageEnd(old(Now()), p, batchSize) - old(cps).At(p)))
    {
      InvRange(Now());
      hide Inv, Writes, Next, GatesPass, Batch, SameStreams, AllInLog, BasesFit, Stopped, BlockedWithin, Reaction, Seen, Undeliverable, InRange;
      others, bases := Now(), [];
      var cp := cps.At(p);
      var upto := PageEnd(Now(), p, batchSize);
      if cp == upto {
        NothingBlocked(Now(), p, []);
        return NothingPending, others, bases;
      }
      ghost var log0 := log;
      var page := log[cp..upto];
      var tx := new BankTx(this, p);
      var handled;
      handled, bases := HandlePage(tx, page);
      if alone { AloneFailsExactly(Now(), p, upto, page, bases, handled); }
      assert log[cp..upto] == page by { hide *; SameSlice(log0, log, cp, upto); }
      if !handled { return RolledBack, Now(), bases; }
      others := Commit(tx, log0, page, upto, bases);
      return Worked, others, bases;
    }

    /** The commit of a page that was read from log0: what the handlers appended, and
        the checkpoint. */
    method Commit(tx: BankTx, ghost log0: seq<Entry>, ghost page: seq<Entry>, upto: nat, ghost bases: seq<Bases>) returns (ghost others: State)
      requires tx.db == this && Inv(Now()) && log0 <= log && cps.At(tx.p) <= upto <= |log0| && page == log0[cps.At(tx.p)..upto]
      requires |bases| == |page| && AllInLog(log, |log0|, bases) && AllInLog(log, 0, bases) && Batch(tx.p, log, page, bases) == Some(tx.own)
      modifies this
      ensures Inv(Now()) && Inv(others) && old(log) <= others.log <= log && others.cps.At(tx.p) == old(cps).At(tx.p)
      ensures Writes(others, CatchUp(tx.p, upto, bases)).Some? && Now() == Next(others, CatchUp(tx.p, upto, bases))
      ensures alone ==> others == old(Now())
    {
      hide Inv, Writes, Next, Batch, SameStreams, AllInLog, BasesFit;
      ghost var log1 := log;
      Interference(tx.p, tx.own);
      others := Now();
      CommitsBatch(log0, log1, others, tx.p, upto, bases, page, tx.own);
      log, cps := log + tx.own, cps.Set(tx.p, upto);
    }

    /** The handler loop of a batch. */
    method HandlePage(tx: BankTx, page: seq<Entry>) returns (ok: bool, ghost bases: seq<Bases>)
      requires tx.db == this && tx.own == [] && Inv(Now())
      modifies tx, this
      ensures Went(tx)
      ensures |bases| <= |page| && AllInLog(log, |old(log)|, bases) && AllInLog(log, 0, bases)
      ensures ok <==> Batch(tx.p, log, page[..|bases|], bases).Some?
      ensures ok ==> |bases| == |page| && Batch(tx.p, log, page, bases) == Some(tx.own)
      ensures !ok ==> Stopped(tx.p, log, page, bases)
    {
      hide Inv, Batch, GatesPass, Reaction, SameStreams, Seen, Handled, Stopped, AllInLog;
      bases := [];
      NoneHandled(tx.p, |log|, log, page);
      Idle(log, []);
      for i := 0 to |page|
        invariant Inv(Now()) && OthersCommit(old(log), log, []) && cps.At(tx.p) == old(cps).At(tx.p)
        invariant alone ==> Now() == old(Now())
        invariant |bases| == i && Handled(tx.p, |old(log)|, log, page, bases, tx.own)
      {
        ghost var own, log1, base := tx.own, log, Bases(0, 0);
        ok, base := HandleEntry(tx, page[i]);
        OthersCommitNothing(old(log), log1, log, own);
        OneHandled(tx.p, |old(log)|, log1, log, page, bases, base, own, tx.own, ok);
        bases := bases + [base];
        if !ok { return; }
      }
      AllHandled(tx.p, |old(log)|, log, page, bases, tx.own);
      return true, bases;
    }

    /** catchUpProjection for one tenant: batches until nothing is pending or one
        fails. It ends, although the handlers append to the log they read. */
    method CatchUpProjection(p: Projection, batchSize: nat) returns (failed: bool)
      requires Inv(Now()) && alone && batchSize > 0
      modifies this
      ensures Inv(Now()) && old(log) <= log && InRange(Now()) && InRange(old(Now()))
      ensures Potential(Now()) <= Potential(old(Now())) && (log != old(log) ==> Potential(Now()) < Potential(old(Now())))
      ensures !failed ==> cps.At(p) == |log|
      ensures failed <==> p.DepositHandler? && Blocked(Now())
      ensures !p.WithdrawalHandler? ==> (Blocked(Now()) <==> Blocked(old(Now())))
      ensures forall q | q != p :: cps.At(q) == old(cps).At(q)
    {
      InvRange(Now());
      hide Inv, Potential, Writes, Next, PageEnd, Blocked, BlockedWithin, Stopped;
      while true
        invariant Inv(Now()) && old(log) <= log && InRange(Now())
        invariant Potential(Now()) <= Potential(old(Now())) && (log != old(log) ==> Potential(Now()) < Potential(old(Now())))
        invariant forall q | q != p :: cps.At(q) == old(cps).At(q)
        invariant !p.WithdrawalHandler? ==> (Blocked(Now()) <==> Blocked(old(Now())))
        decreases Potential(Now())
      {
        ghost var before := Now();
        var r, others, bases := ProcessBatch(p, batchSize);
        InvRange(Now());
        match r
        case NothingPending =>
          AtTheEnd(Now(), p);
          return false;
        case RolledBack =>
          BlockedSomewhere(Now(), p, batchSize);
          return true;
        case Worked =>
          CaughtUp(before, p, batchSize, bases, Now());
          if !p.WithdrawalHandler? { StaysBlocked(before, p, batchSize, bases, Now()); }
      }
    }

    /** catchUpAll over the three projections of the chain. */
    method CatchUpAll(batchSize: nat) returns (failed: bool)
      requires Inv(Now()) && alone && batchSize > 0
      modifies this
      ensures Inv(Now()) && old(log) <= log && InRange(Now()) && InRange(old(Now()))
      ensures Potential(Now()) <= Potential(old(Now())) && (log != old(log) ==> Potential(Now()) < Potential(old(Now())))
      ensures !failed && log == old(log) ==> cps == Checkpoints(|log|, |log|, |log|)
      ensures failed <==> Blocked(Now())
    {
      hide Inv, Potential, Blocked;
      var a := CatchUpProjection(WithdrawalHandler, batchSize);
      var b := CatchUpProjection(DepositHandler, batchSize);
      var c := CatchUpProjection(CompletionHandler, batchSize);
      failed := a || b || c;
    }

    /** The polling loop with no new transfers: it comes to rest, and unless a
        handler keeps failing every started transfer is then completed with one
        withdrawal and one deposit, or failed with neither. */
    method PollUntilQuiet(batchSize: nat) returns (failed: bool)
      requires Inv(Now()) && alone && batchSize > 0
      modifies this
      ensures Inv(Now()) && old(log) <= log
      ensures failed <==> Blocked(Now())
      ensures !failed ==> cps == Checkpoints(|log|, |log|, |log|)
      ensures !failed ==> forall t | Count(log, Started, t) > 0 :: Settled(log, t)
    {
      InvRange(Now());
      hide Inv, Potential, Settled, Blocked;
      var quiet := false;
      failed := false;
      while !quiet && !failed
        invariant Inv(Now()) && old(log) <= log && InRange(Now())
        invariant quiet && !failed ==> cps == Checkpoints(|log|, |log|, |log|)
        invariant (failed ==> Blocked(Now())) && (quiet && !failed ==> !Blocked(Now()))
        decreases Potential(Now()), !quiet, !failed
      {
        var length := |log|;
        failed := CatchUpAll(batchSize);
        quiet := |log| == length;
      }
      if !failed {
        forall t | Count(log, Started, t) > 0 ensures Settled(log, t) { QuiescentSettles(Now(), t); }
      }
    }
  }

  /** Completed with one withdrawal and one deposit, or failed with neither. */
  predicate Settled(log: seq<Entry>, t: string)
  {
    (Count(log, Completed, t) == Count(log, Withdrawn, t) == Count(log, Deposited, t) == 1 && Count(log, Failed, t) == 0) ||
    (Count(log, Completed, t) == Count(log, Withdrawn, t) == Count(log, Deposited, t) == 0 && Count(log, Failed, t) == 1)
  }

  lemma QuiescentSettles(s: State, t: string)
    requires Inv(s) && s.cps == Checkpoints(|s.log|, |s.log|, |s.log|) && Count(s.log, Started, t) > 0
    ensures Settled(s.log, t)
  {
    Quiescent(s, t);
  }

  lemma InvRange(s: State)
    requires Inv(s)
    ensures InRange(s)
  {
  }

  lemma OthersCommitNothing(a: seq<Entry>, b: seq<Entry>, c: seq<Entry>, own: seq<Entry>)
    requires a <= b && OthersCommit(b, c, own)
    ensures OthersCommit(a, c, [])
  {
  }

  lemma NoneHandled(p: Projection, first: nat, log: seq<Entry>, page: seq<Entry>)
    ensures Handled(p, first, log, page, [], [])
  {
    hide Reaction, GatesPass;
    assert page[..0] == [];
  }

  lemma AllHandled(p: Projection, first: nat, log: seq<Entry>, page: seq<Entry>, bases: seq<Bases>, own: seq<Entry>)
    requires Handled(p, first, log, page, bases, own) && |bases| == |page|
    ensures AllInLog(log, first, bases) && AllInLog(log, 0, bases) && Batch(p, log, page, bases) == Some(own)
    ensures Batch(p, log, page[..|bases|], bases) == Some(own)
  {
    hide Batch, AllInLog;
    assert page[..|bases|] == page;
  }

  /** One more handler, while others may have committed. */
  lemma OneHandled(p: Projection, first: nat, log1: seq<Entry>, log: seq<Entry>, page: seq<Entry>, bases: seq<Bases>, base: Bases,
                   own: seq<Entry>, now: seq<Entry>, ok: bool)
    requires Handled(p, first, log1, page, bases, own) && OthersCommit(log1, log, own) && |bases| < |page| && first <= |log1|
    requires InLog(log, base) && |log1| <= base.accounts && |log1| <= base.transfers
    requires var r := Reaction(p, Seen(log, base, own), page[|bases|]);
             (ok <==> r.Some? && GatesPass(log, base, r.value)) && (ok ==> now == own + r.value)
    ensures AllInLog(log, first, bases + [base]) && AllInLog(log, 0, bases + [base])
    ensures ok ==> Handled(p, first, log, page, bases + [base], now)
    ensures !ok ==> Stopped(p, log, page, bases + [base]) && Batch(p, log, page[..|bases| + 1], bases + [base]).None?
  {
    hide Reaction, GatesPass, SameStreams, Seen;
    var i := |bases|;
    BatchGrows(p, log1, log, page[..i], bases, own);
    assert page[..i + 1][..i] == page[..i] && (bases + [base])[..i] == bases;
  }

  lemma CaughtUp(s: State, p: Projection, batchSize: nat, bases: seq<Bases>, t: State)
    requires InRange(s) && s.cps.At(p) < PageEnd(s, p, batchSize)
    requires Writes(s, CatchUp(p, PageEnd(s, p, batchSize), bases)).Some?
    requires t == Next(s, CatchUp(p, PageEnd(s, p, batchSize), bases))
    ensures InRange(t) && Potential(t) < Potential(s) && s.log <= t.log
    ensures forall q | q != p :: t.cps.At(q) == s.cps.At(q)
  {
    var n := PageEnd(s, p, batchSize) - s.cps.At(p);
    hide Potential, Batch;
    var w := Writes(s, CatchUp(p, s.cps.At(p) + n, bases)).value;
    assert Batch(p, s.log, Page(s, p, n), bases) == Some(w);
    hide Writes;
    BatchDrains(s, p, n, bases, w);
  }
}
