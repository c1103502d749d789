/** Bank transfers driven by three catch-up projections over one event log:
    money conservation, exactly-once legs, completion
    (examples/banking-api/src/projections/eventual-transfer-projections.ts,
    examples/banking-api/src/domain/transaction.aggregate.ts). */
module Transfers {
  import opened Wrappers
  import opened Aggregates
  import opened BankAccount

  // ---------------------------------------------------------------------------
  // The transaction aggregate
  // ---------------------------------------------------------------------------

  datatype TransactionEvent =
    | TransactionInitiated(fromAccountId: string, toAccountId: string, amount: real)
    | TransactionStarted(fromAccountId: string, toAccountId: string, amount: real)
    | TransactionCompleted(fromAccountId: string, toAccountId: string, amount: real)
    | TransactionFailed(fromAccountId: string, toAccountId: string, amount: real)

  datatype Status = InPending | InStarted | InCompleted | InFailed

  /** Empty account ids stand for ids that are not set. */
  datatype TransactionState = TransactionState(fromAccountId: string, toAccountId: string, amount: real, status: Status)

  const NEW_TRANSACTION := TransactionState("", "", 0.0, InPending)

  function HandleTransaction(s: TransactionState, e: TransactionEvent): TransactionState
  {
    match e
    case TransactionInitiated(from, to, amount) => TransactionState(from, to, amount, InPending)
    case TransactionStarted(_, _, _) => s.(status := InStarted)
    case TransactionCompleted(_, _, _) => s.(status := InCompleted)
    case TransactionFailed(_, _, _) => s.(status := InFailed)
  }

  const TRANSACTION_HANDLERS: Handlers<TransactionState, TransactionEvent> := (s, e) => Some(HandleTransaction(s, e))

  function TransactionAfter(es: seq<TransactionEvent>): TransactionState
  {
    if es == [] then NEW_TRANSACTION else HandleTransaction(TransactionAfter(es[..|es| - 1]), es[|es| - 1])
  }

  lemma {:induction false} ReplayIsTransactionAfter(es: seq<TransactionEvent>)
    ensures Replay(TRANSACTION_HANDLERS, NEW_TRANSACTION, es) == Some(TransactionAfter(es))
  {
    if es != [] { ReplayIsTransactionAfter(es[..|es| - 1]); }
  }

  /** complete and fail: the event they raise, or None for the error. */
  function Completion(s: TransactionState): Option<TransactionEvent>
  {
    if s.status == InStarted || s.status == InPending
    then Some(TransactionCompleted(s.fromAccountId, s.toAccountId, s.amount)) else None
  }

  function Failure(s: TransactionState): Option<TransactionEvent>
  {
    if s.status == InStarted || s.status == InPending
    then Some(TransactionFailed(s.fromAccountId, s.toAccountId, s.amount)) else None
  }

  class TransactionAggregate {
    const root: AggregateRoot<TransactionState, TransactionEvent>

    constructor (id: string)
      ensures fresh(root) && root.handlers == TRANSACTION_HANDLERS && root.id == id
      ensures root.version == 0 && root.state == NEW_TRANSACTION && root.pending == []
    {
      root := new AggregateRoot(id, NEW_TRANSACTION, TRANSACTION_HANDLERS);
    }

    method Complete() returns (r: Option<TransactionEvent>)
      requires root.handlers == TRANSACTION_HANDLERS
      modifies root
      ensures r == Completion(old(root.state)) && root.version == old(root.version)
      ensures r.Some? ==> root.state == HandleTransaction(old(root.state), r.value) && root.pending == old(root.pending) + [r.value]
      ensures r.None? ==> root.state == old(root.state) && root.pending == old(root.pending)
    {
      if root.state.status != InStarted && root.state.status != InPending { return None; }
      var e := TransactionCompleted(root.state.fromAccountId, root.state.toAccountId, root.state.amount);
      var n := root.Raise([e]);
      assert [e][..1] == [e] && [e][..0] == [];
      return Some(e);
    }

    method Fail() returns (r: Option<TransactionEvent>)
      requires root.handlers == TRANSACTION_HANDLERS
      modifies root
      ensures r == Failure(old(root.state)) && root.version == old(root.version)
      ensures r.Some? ==> root.state == HandleTransaction(old(root.state), r.value) && root.pending == old(root.pending) + [r.value]
      ensures r.None? ==> root.state == old(root.state) && root.pending == old(root.pending)
    {
      if root.state.status != InPending && root.state.status != InStarted { return None; }
      var e := TransactionFailed(root.state.fromAccountId, root.state.toAccountId, root.state.amount);
      var n := root.Raise([e]);
      assert [e][..1] == [e] && [e][..0] == [];
      return Some(e);
    }
  }

  // ---------------------------------------------------------------------------
  // The event log
  // ---------------------------------------------------------------------------

  /** A committed event; byChain records, for the history only, that a transfer
      projection wrote it. */
  datatype Entry = OnAccount(id: string, event: AccountEvent, byChain: bool) | OnTransaction(id: string, change: TransactionEvent)

  function AccountEvents(log: seq<Entry>, id: string): seq<AccountEvent>
  {
    if log == [] then []
    else
      var last := log[|log| - 1];
      AccountEvents(log[..|log| - 1], id) + if last.OnAccount? && last.id == id then [last.event] else []
  }

  function TransferEvents(log: seq<Entry>, t: string): seq<TransactionEvent>
  {
    if log == [] then []
    else
      var last := log[|log| - 1];
      TransferEvents(log[..|log| - 1], t) + if last.OnTransaction? && last.id == t then [last.change] else []
  }

  function AccountIn(log: seq<Entry>, id: string): AccountState { AccountAfter(AccountEvents(log, id)) }

  function TransferOf(log: seq<Entry>, t: string): TransactionState { TransactionAfter(TransferEvents(log, t)) }

  /** What a handler sees: the log when it loads an account, and when it loads a
      transaction. */
  datatype View = View(accounts: seq<Entry>, transfers: seq<Entry>)

  function Whole(log: seq<Entry>): View { View(log, log) }

  /** The stream that an entry extends is the same in both logs. */
  predicate SameStream(a: View, b: seq<Entry>, e: Entry)
  {
    match e
    case OnAccount(id, _, _) => AccountEvents(a.accounts, id) == AccountEvents(b, id)
    case OnTransaction(t, _) => TransferEvents(a.transfers, t) == TransferEvents(b, t)
  }

  predicate SameStreams(a: View, b: seq<Entry>, w: seq<Entry>)
  {
    forall i | 0 <= i < |w| :: SameStream(a, b, w[i])
  }

  /** The version of the stream that an entry extends. */
  function VersionFor(view: View, e: Entry): nat
  {
    match e
    case OnAccount(id, _, _) => |AccountEvents(view.accounts, id)|
    case OnTransaction(t, _) => |TransferEvents(view.transfers, t)|
  }

  /** How much of the log was committed when a handler loaded from it. */
  datatype Bases = Bases(accounts: nat, transfers: nat)

  predicate InLog(log: seq<Entry>, base: Bases) { base.accounts <= |log| && base.transfers <= |log| }

  /** Everything was loaded from the log, after its first entries were committed. */
  predicate AllInLog(log: seq<Entry>, first: nat, bases: seq<Bases>)
  {
    forall i | 0 <= i < |bases| :: InLog(log, bases[i]) && first <= bases[i].accounts && first <= bases[i].transfers
  }

  /** The view of a handler: what was committed when it loaded, and the writes of its
      own transaction. */
  function Seen(log: seq<Entry>, base: Bases, own: seq<Entry>): View
    requires InLog(log, base)
  {
    View(log[..base.accounts] + own, log[..base.transfers] + own)
  }

  lemma {:induction false} AccountConcat(a: seq<Entry>, b: seq<Entry>, id: string)
    ensures AccountEvents(a + b, id) == AccountEvents(a, id) + AccountEvents(b, id)
  {
    if b == [] {
      assert a + b == a;
    } else {
      var n := |b| - 1;
      assert (a + b)[..|a| + n] == a + b[..n] && (a + b)[|a| + n] == b[n];
      AccountConcat(a, b[..n], id);
    }
  }

  lemma {:induction false} TransferConcat(a: seq<Entry>, b: seq<Entry>, t: string)
    ensures TransferEvents(a + b, t) == TransferEvents(a, t) + TransferEvents(b, t)
  {
    if b == [] {
      assert a + b == a;
    } else {
      var n := |b| - 1;
      assert (a + b)[..|a| + n] == a + b[..n] && (a + b)[|a| + n] == b[n];
      TransferConcat(a, b[..n], t);
    }
  }

  lemma EventsConcat(a: seq<Entry>, b: seq<Entry>, id: string)
    ensures AccountEvents(a + b, id) == AccountEvents(a, id) + AccountEvents(b, id)
    ensures TransferEvents(a + b, id) == TransferEvents(a, id) + TransferEvents(b, id)
  {
    AccountConcat(a, b, id);
    TransferConcat(a, b, id);
  }

  lemma Extended(log: seq<Entry>, e: Entry)
    ensures (log + [e])[..|log|] == log
    ensures forall id :: AccountEvents(log + [e], id) == AccountEvents(log, id) + if e.OnAccount? && e.id == id then [e.event] else []
    ensures forall t :: TransferEvents(log + [e], t) == TransferEvents(log, t) + if e.OnTransaction? && e.id == t then [e.change] else []
  {
    assert (log + [e])[..|log|] == log;
  }

  // ---------------------------------------------------------------------------
  // The projections
  // ---------------------------------------------------------------------------

  datatype Projection = WithdrawalHandler | DepositHandler | CompletionHandler

  /** The transfer an entry is of interest for, to a projection. */
  function Concern(p: Projection, e: Entry): Option<string>
  {
    match p
    case WithdrawalHandler => if e.OnTransaction? && e.change.TransactionStarted? then Some(e.id) else None
    case DepositHandler => if e.OnAccount? && e.event.WithdrawalCompleted? then Some(e.event.transfer) else None
    case CompletionHandler => if e.OnAccount? && e.event.DepositCompleted? then Some(e.event.transfer) else None
  }

  /** What handling an entry appends to the log that the handler sees; None is
      the handler's error. */
  function Reaction(p: Projection, view: View, e: Entry): Option<seq<Entry>>
  {
    var concern := Concern(p, e);
    if concern.None? then Some([])
    else
      var t := concern.value;
      match p
      case WithdrawalHandler =>
        var from, amount := e.change.fromAccountId, e.change.amount;
        if AccountIn(view.accounts, from).balance < amount then
          var failed := Failure(TransferOf(view.transfers, t));
          if failed.None? then None else Some([OnTransaction(t, failed.value)])
        else
          var withdrawn := Decide(AccountIn(view.accounts, from), Withdraw(amount, Some(t)));
          if withdrawn.Err? then None
          else Some([OnAccount(from, withdrawn.value, true), OnAccount(from, WithdrawalCompleted(t, amount, withdrawn.value.balance), true)])
      case DepositHandler =>
        var to, amount := TransferOf(view.transfers, t).toAccountId, e.event.amount;
        if to == "" then None
        else
          var deposited := Decide(AccountIn(view.accounts, to), Deposit(amount, Some(t)));
          if deposited.Err? then None
          else Some([OnAccount(to, deposited.value, true), OnAccount(to, DepositCompleted(t, amount, deposited.value.balance), true)])
      case CompletionHandler =>
        var completed := Completion(TransferOf(view.transfers, t));
        if completed.None? then None else Some([OnTransaction(t, completed.value)])
  }

  /** The appends of a handler pass their version gates: their streams are at the
      versions that were loaded. */
  predicate GatesPass(log: seq<Entry>, base: Bases, writes: seq<Entry>)
    requires InLog(log, base)
  {
    forall i | 0 <= i < |writes| :: VersionFor(Whole(log), writes[i]) == VersionFor(Seen(log, base, []), writes[i])
  }

  /** What a page of entries appends to a log, each handler seeing what was committed
      when it loaded and the writes of the ones before. */
  function Batch(p: Projection, log: seq<Entry>, page: seq<Entry>, bases: seq<Bases>): Option<seq<Entry>>
    requires |bases| == |page| && AllInLog(log, 0, bases)
  {
    if page == [] then Some([])
    else
      var n := |page| - 1;
      var before := Batch(p, log, page[..n], bases[..n]);
      if before.None? then None
      else
        var r := Reaction(p, Seen(log, bases[n], before.value), page[n]);
        if r.None? || !GatesPass(log, bases[n], r.value) then None else Some(before.value + r.value)
  }

  // ---------------------------------------------------------------------------
  // Runs
  // ---------------------------------------------------------------------------

  datatype Checkpoints = Checkpoints(withdrawal: nat, deposit: nat, completion: nat) {
    function At(p: Projection): nat
    {
      match p
      case WithdrawalHandler => withdrawal
      case DepositHandler => deposit
      case CompletionHandler => completion
    }

    function Set(p: Projection, n: nat): Checkpoints
    {
      match p
      case WithdrawalHandler => this.(withdrawal := n)
      case DepositHandler => this.(deposit := n)
      case CompletionHandler => this.(completion := n)
    }
  }

  datatype State = State(log: seq<Entry>, cps: Checkpoints)

  const INITIAL := State([], Checkpoints(0, 0, 0))

  /** A base is the length of the log that was committed when something was loaded;
      appends pass the version gate only if their streams did not grow since. A
      batch has a base for every entry it handles. */
  datatype Step =
    | OpenAccount(id: string, customerId: string, initialBalance: real)
    | AccountCommand(base: nat, id: string, command: Command)
    | StartTransfer(t: string, fromAccountId: string, toAccountId: string, amount: real)
    | CatchUp(p: Projection, upto: nat, bases: seq<Bases>)

  /** A batch reads its page before its handlers load anything. */
  predicate BasesFit(s: State, p: Projection, upto: nat, bases: seq<Bases>)
  {
    s.cps.At(p) <= upto <= |s.log| && |bases| == upto - s.cps.At(p) && AllInLog(s.log, upto, bases)
  }

  /** What a transaction writes; None is an error, which rolls it back. */
  function Writes(s: State, step: Step): Option<seq<Entry>>
  {
    match step
    case OpenAccount(id, customerId, initialBalance) =>
      if AccountEvents(s.log, id) != [] then None else Some([OnAccount(id, AccountOpened(customerId, initialBalance), false)])
    case AccountCommand(base, id, command) =>
      if base > |s.log| || command.Open? then None
      else
        var decision := Decide(AccountIn(s.log[..base], id), command);
        if decision.Err? then None
        else
          var writes := [OnAccount(id, decision.value, false)];
          if GatesPass(s.log, Bases(base, base), writes) then Some(writes) else None
    case StartTransfer(t, from, to, amount) =>
      if amount <= 0.0 || from == to || TransferEvents(s.log, t) != [] then None
      else Some([OnTransaction(t, TransactionInitiated(from, to, amount)), OnTransaction(t, TransactionStarted(from, to, amount))])
    case CatchUp(p, upto, bases) =>
      if BasesFit(s, p, upto, bases) then Batch(p, s.log, s.log[s.cps.At(p)..upto], bases) else None
  }

  function Next(s: State, step: Step): State
  {
    var writes := Writes(s, step);
    if writes.None? then s
    else State(s.log + writes.value, if step.CatchUp? then s.cps.Set(step.p, step.upto) else s.cps)
  }

  function After(steps: seq<Step>): State
  {
    if steps == [] then INITIAL else Next(After(steps[..|steps| - 1]), steps[|steps| - 1])
  }

  /** Which requests go through, and what they lead to: an account is opened on an empty
      stream; a transfer is started once, over a positive amount and between two
      accounts, and is then under way with its terms; a command is carried out if the
      account as it is now allows it. */
  lemma RequestsAccepted(s: State, id: string, customerId: string, balance: real, t: string, from: string, to: string, amount: real, c: Command)
    requires !c.Open?
    ensures var opening := Writes(s, OpenAccount(id, customerId, balance));
            (opening.Some? <==> AccountEvents(s.log, id) == []) &&
            (opening.Some? ==> AccountIn(s.log + opening.value, id) == AccountState(customerId, balance, false))
    ensures var started := Writes(s, StartTransfer(t, from, to, amount));
            (started.Some? <==> amount > 0.0 && from != to && TransferEvents(s.log, t) == []) &&
            (started.Some? ==> TransferOf(s.log + started.value, t) == TransactionState(from, to, amount, InStarted))
    ensures var done := Writes(s, AccountCommand(|s.log|, id, c));
            (done.Some? <==> Decide(AccountIn(s.log, id), c).Ok?) &&
            (done.Some? ==> AccountIn(s.log + done.value, id) == BankAccount.Handle(AccountIn(s.log, id), Decide(AccountIn(s.log, id), c).value))
  {
    OpeningAccepted(s, id, customerId, balance);
    StartAccepted(s, t, from, to, amount);
    CommandAccepted(s, id, c);
    hide *;
  }

  lemma OpeningAccepted(s: State, id: string, customerId: string, balance: real)
    ensures var opening := Writes(s, OpenAccount(id, customerId, balance));
            (opening.Some? <==> AccountEvents(s.log, id) == []) &&
            (opening.Some? ==> AccountIn(s.log + opening.value, id) == AccountState(customerId, balance, false))
  {
    var e := OnAccount(id, AccountOpened(customerId, balance), false);
    Extended(s.log, e);
    assert [] + [e.event] == [e.event] && [e.event][..0] == [];
  }

  lemma StartAccepted(s: State, t: string, from: string, to: string, amount: real)
    ensures var started := Writes(s, StartTransfer(t, from, to, amount));
            (started.Some? <==> amount > 0.0 && from != to && TransferEvents(s.log, t) == []) &&
            (started.Some? ==> TransferOf(s.log + started.value, t) == TransactionState(from, to, amount, InStarted))
  {
    var a, b := OnTransaction(t, TransactionInitiated(from, to, amount)), OnTransaction(t, TransactionStarted(from, to, amount));
    if TransferEvents(s.log, t) == [] {
      Extended(s.log, a);
      Extended(s.log + [a], b);
      assert s.log + [a, b] == s.log + [a] + [b];
      assert TransferEvents(s.log + [a], t) == [a.change];
      assert TransferEvents(s.log + [a, b], t) == [a.change] + [b.change] == [a.change, b.change];
      assert [a.change, b.change][..1] == [a.change] && [a.change][..0] == [];
      assert TransactionAfter([a.change]) == HandleTransaction(NEW_TRANSACTION, a.change);
      assert TransactionAfter([a.change, b.change]) == HandleTransaction(TransactionAfter([a.change]), b.change);
    }
  }

  lemma CommandAccepted(s: State, id: string, c: Command)
    requires !c.Open?
    ensures var done := Writes(s, AccountCommand(|s.log|, id, c));
            (done.Some? <==> Decide(AccountIn(s.log, id), c).Ok?) &&
            (done.Some? ==> AccountIn(s.log + done.value, id) == BankAccount.Handle(AccountIn(s.log, id), Decide(AccountIn(s.log, id), c).value))
  {
    assert s.log[..|s.log|] == s.log && s.log + [] == s.log;
    var decision := Decide(AccountIn(s.log, id), c);
    if decision.Ok? {
      var e := OnAccount(id, decision.value, false);
      Extended(s.log, e);
      var es := AccountEvents(s.log, id);
      assert (es + [e.event])[..|es|] == es;
    }
    hide AccountEvents, Decide;
  }

  // ---------------------------------------------------------------------------
  // What every run keeps
  // ---------------------------------------------------------------------------

  /** The entries that count for a transfer. */
  datatype Kind = Started | Failed | Completed | Withdrawn | WithdrawnMark | Deposited | DepositedMark

  predicate Is(e: Entry, k: Kind, t: string)
  {
    match k
    case Started => e.OnTransaction? && e.id == t && e.change.TransactionStarted?
    case Failed => e.OnTransaction? && e.id == t && e.change.TransactionFailed?
    case Completed => e.OnTransaction? && e.id == t && e.change.TransactionCompleted?
    case Withdrawn => e.OnAccount? && e.byChain && e.event.AccountWithdrawn? && e.event.transactionId == Some(t)
    case WithdrawnMark => e.OnAccount? && e.event.WithdrawalCompleted? && e.event.transfer == t
    case Deposited => e.OnAccount? && e.byChain && e.event.AccountDeposited? && e.event.transactionId == Some(t)
    case DepositedMark => e.OnAccount? && e.event.DepositCompleted? && e.event.transfer == t
  }

  function Count(log: seq<Entry>, k: Kind, t: string): nat
  {
    if log == [] then 0 else Count(log[..|log| - 1], k, t) + if Is(log[|log| - 1], k, t) then 1 else 0
  }

  lemma CountNext(log: seq<Entry>, n: nat)
    requires n < |log|
    ensures forall k, t :: Count(log[..n + 1], k, t) == Count(log[..n], k, t) + if Is(log[n], k, t) then 1 else 0
  {
    assert log[..n + 1][..n] == log[..n];
  }

  lemma {:induction false} CountPrefix(log: seq<Entry>, n: nat, k: Kind, t: string)
    requires n <= |log|
    ensures Count(log[..n], k, t) <= Count(log, k, t)
  {
    if n == |log| {
      assert log[..n] == log;
    } else {
      assert log[..|log| - 1][..n] == log[..n];
      CountPrefix(log[..|log| - 1], n, k, t);
    }
  }

  /** An account leg written by a projection is on the account and over the
      amount of its transfer, which has been started. */
  predicate LegFits(log: seq<Entry>, id: string, event: AccountEvent)
  {
    match event
    case AccountWithdrawn(amount, _, tid) =>
      tid.Some? && TransferEvents(log, tid.value) != [] &&
      id == TransferOf(log, tid.value).fromAccountId && amount == TransferOf(log, tid.value).amount
    case WithdrawalCompleted(t, amount, _) =>
      TransferEvents(log, t) != [] && id == TransferOf(log, t).fromAccountId && amount == TransferOf(log, t).amount
    case AccountDeposited(amount, _, tid) =>
      tid.Some? && TransferEvents(log, tid.value) != [] &&
      id == TransferOf(log, tid.value).toAccountId && amount == TransferOf(log, tid.value).amount
    case DepositCompleted(t, amount, _) =>
      TransferEvents(log, t) != [] && id == TransferOf(log, t).toAccountId && amount == TransferOf(log, t).amount
    case _ => false
  }

  /** What may follow a log. */
  predicate Admissible(log: seq<Entry>, e: Entry)
  {
    match e
    case OnAccount(id, event, byChain) =>
      Legal(AccountIn(log, id), event) &&
      (event.AccountOpened? ==> AccountEvents(log, id) == []) &&
      (event.WithdrawalCompleted? || event.DepositCompleted? ==> byChain) &&
      (byChain ==> LegFits(log, id, event))
    case OnTransaction(t, change) =>
      match change
      case TransactionInitiated(_, _, amount) => TransferEvents(log, t) == [] && amount > 0.0
      case TransactionStarted(from, to, amount) => TransferEvents(log, t) == [TransactionInitiated(from, to, amount)]
      case _ => TransferEvents(log, t) != []
  }

  predicate WellFormed(log: seq<Entry>)
  {
    log == [] || (WellFormed(log[..|log| - 1]) && Admissible(log[..|log| - 1], log[|log| - 1]))
  }

  /** Every projection has done its part for exactly the entries it has passed. */
  predicate Flowing(log: seq<Entry>, cps: Checkpoints, t: string)
    requires cps.withdrawal <= |log| && cps.deposit <= |log| && cps.completion <= |log|
  {
    Count(log, Started, t) <= 1 &&
    Count(log, Withdrawn, t) == Count(log, WithdrawnMark, t) &&
    Count(log, Deposited, t) == Count(log, DepositedMark, t) &&
    Count(log, WithdrawnMark, t) + Count(log, Failed, t) == Count(log[..cps.withdrawal], Started, t) &&
    Count(log, DepositedMark, t) == Count(log[..cps.deposit], WithdrawnMark, t) &&
    Count(log, Completed, t) == Count(log[..cps.completion], DepositedMark, t)
  }

  ghost predicate Inv(s: State)
  {
    s.cps.withdrawal <= |s.log| && s.cps.deposit <= |s.log| && s.cps.completion <= |s.log| &&
    WellFormed(s.log) && forall t :: Flowing(s.log, s.cps, t)
  }

  lemma {:induction false} WellFormedPrefix(log: seq<Entry>, n: nat)
    requires WellFormed(log) && n <= |log|
    ensures WellFormed(log[..n])
    ensures n < |log| ==> Admissible(log[..n], log[n])
  {
    if n < |log| {
      var init := log[..|log| - 1];
      WellFormedPrefix(init, n);
      assert init[..n] == log[..n];
    } else {
      assert log[..n] == log;
    }
  }

  predicate SameTerms(a: TransactionState, b: TransactionState)
  {
    a.fromAccountId == b.fromAccountId && a.toAccountId == b.toAccountId && a.amount == b.amount
  }

  /** The terms of a transfer are fixed when it is initiated. */
  lemma {:induction false} TermsStable(log: seq<Entry>, n: nat, t: string)
    requires WellFormed(log) && n <= |log| && TransferEvents(log[..n], t) != []
    ensures TransferEvents(log, t) != [] && SameTerms(TransferOf(log, t), TransferOf(log[..n], t))
  {
    hide TransferOf, Admissible;
    if n < |log| {
      var init := log[..|log| - 1];
      assert init[..n] == log[..n];
      TermsStable(init, n, t);
      TermsStep(init, log[|log| - 1], t);
      assert log == init + [log[|log| - 1]];
    } else {
      assert log[..n] == log;
    }
  }

  lemma TermsStep(log: seq<Entry>, e: Entry, t: string)
    requires TransferEvents(log, t) != [] && Admissible(log, e)
    ensures TransferEvents(log + [e], t) != [] && SameTerms(TransferOf(log + [e], t), TransferOf(log, t))
  {
    Extended(log, e);
    var es := TransferEvents(log, t);
    if e.OnTransaction? && e.id == t {
      assert (es + [e.change])[..|es|] == es;
    } else {
      assert es + [] == es;
    }
  }

  // ---------------------------------------------------------------------------
  // One handler, one batch, one step
  // ---------------------------------------------------------------------------

  lemma PrefixSame(log: seq<Entry>, base: nat, id: string)
    requires base <= |log|
    ensures |AccountEvents(log[..base], id)| == |AccountEvents(log, id)| ==> AccountEvents(log[..base], id) == AccountEvents(log, id)
    ensures |TransferEvents(log[..base], id)| == |TransferEvents(log, id)| ==> TransferEvents(log[..base], id) == TransferEvents(log, id)
  {
    EventsConcat(log[..base], log[base..], id);
    assert log[..base] + log[base..] == log;
  }

  /** A gate that passes means that the stream is what the handler saw of it. */
  lemma GateMeansSame(log: seq<Entry>, base: Bases, own: seq<Entry>, e: Entry)
    requires InLog(log, base) && VersionFor(Whole(log), e) == VersionFor(Seen(log, base, []), e)
    ensures SameStream(Seen(log, base, own), log + own, e)
  {
    assert log[..base.accounts] + [] == log[..base.accounts] && log[..base.transfers] + [] == log[..base.transfers];
    PrefixSame(log, base.accounts, e.id);
    PrefixSame(log, base.transfers, e.id);
    EventsConcat(log, own, e.id);
    EventsConcat(log[..base.accounts], own, e.id);
    EventsConcat(log[..base.transfers], own, e.id);
  }

  lemma GatesMeanSame(log: seq<Entry>, base: Bases, own: seq<Entry>, r: seq<Entry>)
    requires InLog(log, base) && GatesPass(log, base, r)
    ensures SameStreams(Seen(log, base, own), log + own, r)
  {
    hide SameStream, VersionFor;
    forall j | 0 <= j < |r| ensures SameStream(Seen(log, base, own), log + own, r[j]) { GateMeansSame(log, base, own, r[j]); }
  }

  lemma WellFormedExtends(log: seq<Entry>, e: Entry)
    requires WellFormed(log) && Admissible(log, e)
    ensures WellFormed(log + [e])
  {
    assert (log + [e])[..|log|] == log;
  }

  lemma WellFormedTwice(log: seq<Entry>, a: Entry, b: Entry)
    requires WellFormed(log) && Admissible(log, a) && Admissible(log + [a], b)
    ensures WellFormed(log + [a, b])
  {
    WellFormedExtends(log, a);
    WellFormedExtends(log + [a], b);
    assert log + [a, b] == log + [a] + [b];
  }

  lemma {:induction false} CountConcat(a: seq<Entry>, b: seq<Entry>, k: Kind, t: string)
    ensures Count(a + b, k, t) == Count(a, k, t) + Count(b, k, t)
  {
    if b == [] {
      assert a + b == a;
    } else {
      var n := |b| - 1;
      assert (a + b)[..|a| + n] == a + b[..n];
      CountConcat(a, b[..n], k, t);
    }
  }

  /** What a handler's writes must count for a transfer when it passes entry e. */
  predicate Answers(p: Projection, e: Entry, w: seq<Entry>, t: string)
  {
    Count(w, Started, t) == 0 &&
    Count(w, Withdrawn, t) == Count(w, WithdrawnMark, t) && Count(w, Deposited, t) == Count(w, DepositedMark, t) &&
    Count(w, WithdrawnMark, t) + Count(w, Failed, t) == (if p.WithdrawalHandler? && Is(e, Started, t) then 1 else 0) &&
    Count(w, DepositedMark, t) == (if p.DepositHandler? && Is(e, WithdrawnMark, t) then 1 else 0) &&
    Count(w, Completed, t) == if p.CompletionHandler? && Is(e, DepositedMark, t) then 1 else 0
  }

  lemma ShortCount(w: seq<Entry>, k: Kind, t: string)
    requires |w| <= 2
    ensures Count(w, k, t) == (if |w| > 0 && Is(w[0], k, t) then 1 else 0) + if |w| > 1 && Is(w[1], k, t) then 1 else 0
  {
    if |w| == 2 {
      assert w[..1] == [w[0]];
      ShortCount(w[..1], k, t);
    }
  }

  /** A handler passes over an entry, settles its transfer, or writes a leg. */
  lemma ReactionShape(p: Projection, view: View, e: Entry)
    requires Reaction(p, view, e).Some?
    ensures var w := Reaction(p, view, e).value;
            |w| <= 2 && (Concern(p, e).None? <==> w == []) &&
            (|w| == 1 ==> (p.WithdrawalHandler? && w[0].OnTransaction? && w[0].id == Concern(p, e).value && w[0].change.TransactionFailed?) ||
                          (p.CompletionHandler? && w[0].OnTransaction? && w[0].id == Concern(p, e).value && w[0].change.TransactionCompleted?))
  {
    hide AccountIn, TransferOf, Decide;
  }

  lemma ReactionAnswers(p: Projection, view: View, e: Entry, t: string)
    requires Reaction(p, view, e).Some?
    ensures Answers(p, e, Reaction(p, view, e).value, t)
  {
    var w := Reaction(p, view, e).value;
    ReactionShape(p, view, e);
    if |w| == 2 { LegDecided(p, view, e); }
    hide Reaction, AccountIn, TransferOf, Legal, Count, AccountEvents, TransferEvents, Decide;
    forall k ensures Count(w, k, t) == (if |w| > 0 && Is(w[0], k, t) then 1 else 0) + if |w| > 1 && Is(w[1], k, t) then 1 else 0 {
      ShortCount(w, k, t);
    }
  }

  /** A transfer is failed or completed under its own accounts and amount, and only
      while it is neither. */
  lemma SettledWithTerms(p: Projection, view: View, e: Entry)
    requires Reaction(p, view, e).Some? && |Reaction(p, view, e).value| == 1
    ensures var t := Concern(p, e).value;
            var s := TransferOf(view.transfers, t);
            s.status != InCompleted && s.status != InFailed &&
            Reaction(p, view, e).value[0] ==
              OnTransaction(t, if p.WithdrawalHandler? then TransactionFailed(s.fromAccountId, s.toAccountId, s.amount)
                               else TransactionCompleted(s.fromAccountId, s.toAccountId, s.amount))
  {
  }

  lemma LegDecided(p: Projection, view: View, e: Entry)
    requires Concern(p, e).Some? && Reaction(p, view, e).Some? && |Reaction(p, view, e).value| == 2
    ensures var w, t := Reaction(p, view, e).value, Concern(p, e).value;
            w[0].OnAccount? && w[0].byChain && Legal(AccountIn(view.accounts, w[0].id), w[0].event) &&
            match p
            case WithdrawalHandler =>
              w[0].id == e.change.fromAccountId && w[0].event.AccountWithdrawn? && w[0].event.transactionId == Some(t) && w[0].event.amount == e.change.amount &&
              w[1] == OnAccount(w[0].id, WithdrawalCompleted(t, e.change.amount, w[0].event.balance), true)
            case DepositHandler =>
              w[0].id == TransferOf(view.transfers, t).toAccountId && w[0].event.AccountDeposited? && w[0].event.transactionId == Some(t) && w[0].event.amount == e.event.amount &&
              w[1] == OnAccount(w[0].id, DepositCompleted(t, e.event.amount, w[0].event.balance), true)
            case CompletionHandler => false
  {
  }

  lemma CountsAdd(cur: seq<Entry>, w: seq<Entry>, t: string)
    ensures forall k :: Count(cur + w, k, t) == Count(cur, k, t) + Count(w, k, t)
  {
    forall k ensures Count(cur + w, k, t) == Count(cur, k, t) + Count(w, k, t) { CountConcat(cur, w, k, t); }
  }

  lemma FlowAdvances(cur: seq<Entry>, cps: Checkpoints, p: Projection, w: seq<Entry>, t: string)
    requires cps.withdrawal <= |cur| && cps.deposit <= |cur| && cps.completion <= |cur| && cps.At(p) < |cur|
    requires Flowing(cur, cps, t) && Answers(p, cur[cps.At(p)], w, t)
    ensures Flowing(cur + w, cps.Set(p, cps.At(p) + 1), t)
  {
    CountsAdd(cur, w, t);
    CountNext(cur, cps.At(p));
    hide Count, Is;
    var after, cps' := cur + w, cps.Set(p, cps.At(p) + 1);
    assert after[..cps'.withdrawal] == cur[..cps'.withdrawal];
    assert after[..cps'.deposit] == cur[..cps'.deposit];
    assert after[..cps'.completion] == cur[..cps'.completion];
  }

  /** Entries that count for no transfer leave every flow as it is. */
  lemma FlowUntouched(cur: seq<Entry>, cps: Checkpoints, w: seq<Entry>, t: string)
    requires cps.withdrawal <= |cur| && cps.deposit <= |cur| && cps.completion <= |cur|
    requires Flowing(cur, cps, t) && Count(cur, Started, t) + Count(w, Started, t) <= 1
    requires forall k: Kind | k != Started :: Count(w, k, t) == 0
    ensures Flowing(cur + w, cps, t)
  {
    CountsAdd(cur, w, t);
    hide Count, Is;
    var after := cur + w;
    assert after[..cps.withdrawal] == cur[..cps.withdrawal];
    assert after[..cps.deposit] == cur[..cps.deposit];
    assert after[..cps.completion] == cur[..cps.completion];
  }

  /** The transfer a projection is concerned with was started with these terms. */
  lemma ConcernStarted(log: seq<Entry>, i: nat, p: Projection)
    requires WellFormed(log) && i < |log| && Concern(p, log[i]).Some?
    ensures var t := Concern(p, log[i]).value;
            TransferEvents(log[..i], t) != [] && TransferEvents(log, t) != [] &&
            SameTerms(TransferOf(log, t), TransferOf(log[..i], t)) &&
            (p.WithdrawalHandler? ==>
               log[i].change.fromAccountId == TransferOf(log, t).fromAccountId && log[i].change.amount == TransferOf(log, t).amount) &&
            (p.DepositHandler? ==> log[i].event.amount == TransferOf(log, t).amount)
  {
    var t := Concern(p, log[i]).value;
    WellFormedPrefix(log, i);
    TermsStable(log, i, t);
    if p.WithdrawalHandler? {
      var es := TransferEvents(log[..i], t);
      assert es[..0] == [];
    }
  }

  /** Two account entries of a transfer leg, the money and its mark. */
  lemma LegAdmissible(log: seq<Entry>, id: string, t: string, event: AccountEvent, mark: AccountEvent)
    requires WellFormed(log) && TransferEvents(log, t) != []
    requires Legal(AccountIn(log, id), event) && !event.AccountOpened? && LegFits(log, id, event)
    requires (event.AccountWithdrawn? && mark == WithdrawalCompleted(t, event.amount, event.balance)) ||
             (event.AccountDeposited? && mark == DepositCompleted(t, event.amount, event.balance))
    requires event.transactionId == Some(t)
    ensures WellFormed(log + [OnAccount(id, event, true), OnAccount(id, mark, true)])
  {
    var a, b := OnAccount(id, event, true), OnAccount(id, mark, true);
    Extended(log, a);
    var es := AccountEvents(log, id);
    assert (es + [event])[..|es|] == es;
    assert AccountIn(log + [a], id) == Handle(AccountIn(log, id), event);
    assert TransferEvents(log + [a], t) == TransferEvents(log, t);
    WellFormedTwice(log, a, b);
  }

  lemma LegReaction(view: View, cur: seq<Entry>, i: nat, p: Projection, w: seq<Entry>)
    requires WellFormed(cur) && i < |cur| && Reaction(p, view, cur[i]) == Some(w) && SameStreams(view, cur, w)
    requires |w| == 2 && Concern(p, cur[i]).Some?
    requires p.DepositHandler? ==> SameTerms(TransferOf(view.transfers, Concern(p, cur[i]).value), TransferOf(cur, Concern(p, cur[i]).value))
    ensures WellFormed(cur + w)
  {
    LegDecided(p, view, cur[i]);
    ConcernStarted(cur, i, p);
    assert SameStream(view, cur, w[0]);
    hide Reaction, WellFormed, TransferEvents, AccountEvents, Legal, SameStreams, TransactionAfter, AccountAfter;
    assert w == [w[0], w[1]];
    LegAdmissible(cur, w[0].id, Concern(p, cur[i]).value, w[0].event, w[1].event);
  }

  /** The appends of one handler may follow the current log. */
  lemma ReactionAdmissible(view: View, cur: seq<Entry>, i: nat, p: Projection, w: seq<Entry>)
    requires WellFormed(cur) && i < |cur| && Reaction(p, view, cur[i]) == Some(w) && SameStreams(view, cur, w)
    requires p.DepositHandler? && Concern(p, cur[i]).Some? ==>
               SameTerms(TransferOf(view.transfers, Concern(p, cur[i]).value), TransferOf(cur, Concern(p, cur[i]).value))
    ensures WellFormed(cur + w)
  {
    ReactionShape(p, view, cur[i]);
    if w == [] {
      assert cur + w == cur;
    } else {
      ConcernStarted(cur, i, p);
      if |w| == 1 {
        hide Reaction, WellFormed, TransferEvents;
        WellFormedExtends(cur, w[0]);
        assert w == [w[0]];
      } else {
        LegReaction(view, cur, i, p, w);
      }
    }
  }

  /** One handler: whatever older log it read, as long as the streams it appends
      to did not change since, it moves its projection's part of the flow on. */
  lemma HandlerKeepsInv(view: View, s: State, p: Projection, w: seq<Entry>)
    requires Inv(s) && s.cps.At(p) < |s.log| && Reaction(p, view, s.log[s.cps.At(p)]) == Some(w) && SameStreams(view, s.log, w)
    requires var concern := Concern(p, s.log[s.cps.At(p)]);
             p.DepositHandler? && concern.Some? ==> SameTerms(TransferOf(view.transfers, concern.value), TransferOf(s.log, concern.value))
    ensures Inv(State(s.log + w, s.cps.Set(p, s.cps.At(p) + 1)))
  {
    InvMeans(s);
    ReactionAdmissible(view, s.log, s.cps.At(p), p, w);
    hide Reaction, WellFormed, Flowing, SameStreams, TransferOf, Concern;
    var after := State(s.log + w, s.cps.Set(p, s.cps.At(p) + 1));
    forall t ensures Flowing(after.log, after.cps, t) { OneFlow(view, s, p, w, t); }
  }

  lemma InvMeans(s: State)
    requires Inv(s)
    ensures s.cps.withdrawal <= |s.log| && s.cps.deposit <= |s.log| && s.cps.completion <= |s.log| && WellFormed(s.log)
  {
  }

  lemma OneFlow(view: View, s: State, p: Projection, w: seq<Entry>, t: string)
    requires Inv(s) && s.cps.At(p) < |s.log| && Reaction(p, view, s.log[s.cps.At(p)]) == Some(w)
    ensures var cps := s.cps.Set(p, s.cps.At(p) + 1);
            cps.withdrawal <= |s.log + w| && cps.deposit <= |s.log + w| && cps.completion <= |s.log + w| && Flowing(s.log + w, cps, t)
  {
    hide Reaction, WellFormed, Flowing, Answers;
    ReactionAnswers(p, view, s.log[s.cps.At(p)], t);
    FlowAdvances(s.log, s.cps, p, w, t);
  }

  lemma {:induction false} DepositsTouchAccounts(log: seq<Entry>, page: seq<Entry>, bases: seq<Bases>)
    requires |bases| == |page| && AllInLog(log, 0, bases)
    requires Batch(DepositHandler, log, page, bases).Some?
    ensures forall t :: TransferEvents(Batch(DepositHandler, log, page, bases).value, t) == []
  {
    hide GatesPass;
    if page != [] {
      var n := |page| - 1;
      DepositsTouchAccounts(log, page[..n], bases[..n]);
      var before := Batch(DepositHandler, log, page[..n], bases[..n]).value;
      var r := Reaction(DepositHandler, Seen(log, bases[n], before), page[n]).value;
      forall t ensures TransferEvents(before + r, t) == [] {
        EventsConcat(before, r, t);
        NoTransferEntries(r, t);
      }
    }
  }

  lemma {:induction false} NoTransferEntries(w: seq<Entry>, t: string)
    requires forall i | 0 <= i < |w| :: w[i].OnAccount?
    ensures TransferEvents(w, t) == []
  {
    if w != [] { NoTransferEntries(w[..|w| - 1], t); }
  }

  /** The deposit handler reads the transfer's terms from a log it does not lock;
      they are the current ones. */
  lemma DepositSeesTerms(log: seq<Entry>, base: nat, i: nat, before: seq<Entry>)
    requires WellFormed(log) && i < base <= |log| && Concern(DepositHandler, log[i]).Some?
    requires TransferEvents(before, Concern(DepositHandler, log[i]).value) == []
    ensures var t := Concern(DepositHandler, log[i]).value;
            SameTerms(TransferOf(log[..base] + before, t), TransferOf(log + before, t))
  {
    var t := Concern(DepositHandler, log[i]).value;
    EventsConcat(log[..base], before, t);
    EventsConcat(log, before, t);
    WellFormedPrefix(log, base);
    assert log[..base][i] == log[i];
    ConcernStarted(log[..base], i, DepositHandler);
    TermsStable(log, base, t);
    hide WellFormed, TransferEvents, TransactionAfter;
    assert TransferEvents(log, t) + [] == TransferEvents(log, t);
    assert TransferEvents(log[..base], t) + [] == TransferEvents(log[..base], t);
  }

  function Page(s: State, p: Projection, n: nat): (r: seq<Entry>)
    requires s.cps.At(p) + n <= |s.log|
    ensures |r| == n
  {
    s.log[s.cps.At(p)..s.cps.At(p) + n]
  }

  /** A batch whose handlers each saw an older log, and whose appends pass the
      version gates, keeps the invariant, as if its handlers had run one by one on
      the current log. */
  lemma {:induction false} BatchKeepsInv(s: State, p: Projection, n: nat, bases: seq<Bases>, w: seq<Entry>)
    requires Inv(s) && s.cps.At(p) + n <= |s.log| && |bases| == n && AllInLog(s.log, s.cps.At(p) + n, bases)
    requires Batch(p, s.log, Page(s, p, n), bases) == Some(w)
    ensures Inv(State(s.log + w, s.cps.Set(p, s.cps.At(p) + n)))
  {
    hide *;
    if n == 0 {
      EmptyBatch(s, p, bases, w);
    } else {
      LastBase(s.log, s.cps.At(p) + n, n, bases);
      var before, r := BatchUnfold(s, p, n, bases, w);
      var i := s.cps.At(p) + n - 1;
      GatesMeanSame(s.log, bases[n - 1], before, r);
      BatchKeepsInv(s, p, n - 1, bases[..n - 1], before);
      BatchTerms(s, bases[n - 1], i, p, Page(s, p, n - 1), bases[..n - 1], before);
      LastHandler(s, p, Seen(s.log, bases[n - 1], before), i, before, r);
    }
  }

  lemma LastBase(log: seq<Entry>, first: nat, n: nat, bases: seq<Bases>)
    requires 0 < n == |bases| && n <= first && AllInLog(log, first, bases)
    ensures AllInLog(log, first - 1, bases[..n - 1]) && AllInLog(log, 0, bases[..n - 1]) && AllInLog(log, 0, bases)
    ensures InLog(log, bases[n - 1]) && first <= bases[n - 1].transfers
  {
  }

  lemma EmptyBatch(s: State, p: Projection, bases: seq<Bases>, w: seq<Entry>)
    requires s.cps.At(p) <= |s.log| && bases == [] && Batch(p, s.log, Page(s, p, 0), bases) == Some(w)
    ensures State(s.log + w, s.cps.Set(p, s.cps.At(p))) == s
  {
    hide Reaction, GatesPass;
    assert |Page(s, p, 0)| == 0;
    assert w == [];
    assert s.log + w == s.log;
  }

  lemma SliceInit<T>(q: seq<T>, lo: nat, n: nat)
    requires 0 < n && lo + n <= |q|
    ensures q[lo..lo + n][..n - 1] == q[lo..lo + (n - 1)] && q[lo..lo + n][n - 1] == q[lo + n - 1]
  {
  }

  lemma BatchUnfold(s: State, p: Projection, n: nat, bases: seq<Bases>, w: seq<Entry>) returns (before: seq<Entry>, r: seq<Entry>)
    requires 0 < n && s.cps.At(p) + n <= |s.log| && |bases| == n && AllInLog(s.log, 0, bases)
    requires Batch(p, s.log, Page(s, p, n), bases) == Some(w)
    ensures Batch(p, s.log, Page(s, p, n - 1), bases[..n - 1]) == Some(before) && w == before + r
    ensures Reaction(p, Seen(s.log, bases[n - 1], before), s.log[s.cps.At(p) + n - 1]) == Some(r)
    ensures GatesPass(s.log, bases[n - 1], r)
  {
    hide Reaction, GatesPass;
    SliceInit(s.log, s.cps.At(p), n);
    assert Page(s, p, n)[..n - 1] == Page(s, p, n - 1);
    before := Batch(p, s.log, Page(s, p, n - 1), bases[..n - 1]).value;
    r := Reaction(p, Seen(s.log, bases[n - 1], before), s.log[s.cps.At(p) + n - 1]).value;
  }

  lemma BatchTerms(s: State, base: Bases, i: nat, p: Projection, page: seq<Entry>, bases: seq<Bases>, before: seq<Entry>)
    requires Inv(s) && InLog(s.log, base) && i < base.transfers
    requires |bases| == |page| && AllInLog(s.log, 0, bases)
    requires Batch(p, s.log, page, bases) == Some(before)
    ensures p.DepositHandler? && Concern(p, s.log[i]).Some? ==>
              SameTerms(TransferOf(Seen(s.log, base, before).transfers, Concern(p, s.log[i]).value), TransferOf(s.log + before, Concern(p, s.log[i]).value))
  {
    if p.DepositHandler? && Concern(p, s.log[i]).Some? {
      DepositsTouchAccounts(s.log, page, bases);
      hide Batch;
      DepositSeesTerms(s.log, base.transfers, i, before);
    }
  }

  lemma LastHandler(s: State, p: Projection, view: View, i: nat, before: seq<Entry>, r: seq<Entry>)
    requires i < |s.log| && Inv(State(s.log + before, s.cps.Set(p, i)))
    requires Reaction(p, view, s.log[i]) == Some(r) && SameStreams(view, s.log + before, r)
    requires p.DepositHandler? && Concern(p, s.log[i]).Some? ==>
               SameTerms(TransferOf(view.transfers, Concern(p, s.log[i]).value), TransferOf(s.log + before, Concern(p, s.log[i]).value))
    ensures Inv(State(s.log + (before + r), s.cps.Set(p, i + 1)))
  {
    hide Inv, Reaction, SameStreams, Concern, TransferOf;
    var mid := State(s.log + before, s.cps.Set(p, i));
    assert mid.log[i] == s.log[i];
    HandlerKeepsInv(view, mid, p, r);
    assert mid.log + r == s.log + (before + r);
  }

  lemma {:induction false} NoStreamNoStart(log: seq<Entry>, t: string)
    requires TransferEvents(log, t) == []
    ensures Count(log, Started, t) == 0
  {
    if log != [] { NoStreamNoStart(log[..|log| - 1], t); }
  }

  /** A single account entry of a command or of startStream. */
  lemma PlainKeepsInv(s: State, id: string, event: AccountEvent)
    requires Inv(s) && Legal(AccountIn(s.log, id), event) && (event.AccountOpened? ==> AccountEvents(s.log, id) == [])
    requires !event.WithdrawalCompleted? && !event.DepositCompleted?
    ensures Inv(State(s.log + [OnAccount(id, event, false)], s.cps))
  {
    var e := OnAccount(id, event, false);
    WellFormedExtends(s.log, e);
    forall t ensures Flowing(s.log + [e], s.cps, t) {
      forall k ensures Count([e], k, t) == 0 { ShortCount([e], k, t); }
      FlowUntouched(s.log, s.cps, [e], t);
    }
    hide WellFormed, Flowing;
  }

  lemma StartKeepsInv(s: State, t: string, from: string, to: string, amount: real)
    requires Inv(s) && TransferEvents(s.log, t) == [] && amount > 0.0
    ensures Inv(State(s.log + [OnTransaction(t, TransactionInitiated(from, to, amount)), OnTransaction(t, TransactionStarted(from, to, amount))], s.cps))
  {
    var a, b := OnTransaction(t, TransactionInitiated(from, to, amount)), OnTransaction(t, TransactionStarted(from, to, amount));
    Extended(s.log, a);
    WellFormedTwice(s.log, a, b);
    NoStreamNoStart(s.log, t);
    forall u ensures Flowing(s.log + [a, b], s.cps, u) {
      forall k ensures Count([a, b], k, u) == if k == Started && u == t then 1 else 0 { ShortCount([a, b], k, u); }
      FlowUntouched(s.log, s.cps, [a, b], u);
    }
    hide WellFormed, Flowing;
  }

  lemma CommandGate(log: seq<Entry>, base: nat, id: string, e: Entry)
    requires base <= |log| && e.OnAccount? && e.id == id && VersionFor(Whole(log), e) == VersionFor(Seen(log, Bases(base, base), []), e)
    ensures AccountEvents(log[..base], id) == AccountEvents(log, id)
  {
    GateMeansSame(log, Bases(base, base), [], e);
    assert log[..base] + [] == log[..base] && log + [] == log;
  }

  lemma CommandKeepsInv(s: State, base: nat, id: string, command: Command)
    requires Inv(s) && Writes(s, AccountCommand(base, id, command)).Some?
    ensures Inv(Next(s, AccountCommand(base, id, command)))
  {
    var decision := Decide(AccountIn(s.log[..base], id), command).value;
    var e := OnAccount(id, decision, false);
    assert [e][0] == e;
    CommandGate(s.log, base, id, e);
    DecidedIsLegal(AccountIn(s.log, id), command);
    assert !decision.WithdrawalCompleted? && !decision.DepositCompleted? && !decision.AccountOpened?;
    hide Inv, Legal, Decide, AccountAfter, AccountEvents;
    PlainKeepsInv(s, id, decision);
  }

  lemma StepKeepsInv(s: State, step: Step)
    requires Inv(s)
    ensures Inv(Next(s, step))
  {
    hide Inv, Batch;
    if Writes(s, step).Some? {
      match step
      case OpenAccount(id, customerId, initialBalance) => PlainKeepsInv(s, id, AccountOpened(customerId, initialBalance));
      case AccountCommand(base, id, command) =>
        CommandKeepsInv(s, base, id, command);
      case StartTransfer(t, from, to, amount) => StartKeepsInv(s, t, from, to, amount);
      case CatchUp(p, upto, bases) => BatchKeepsInv(s, p, upto - s.cps.At(p), bases, Writes(s, step).value);
    }
  }

  lemma {:induction false} RunKeepsInv(steps: seq<Step>)
    ensures Inv(After(steps))
  {
    if steps == [] {
    } else {
      RunKeepsInv(steps[..|steps| - 1]);
      StepKeepsInv(After(steps[..|steps| - 1]), steps[|steps| - 1]);
    }
  }

  // ---------------------------------------------------------------------------
  // What the invariant means: transfers
  // ---------------------------------------------------------------------------

  /** In every run each transfer is withdrawn at most once and deposited at most
      once, never before it is withdrawn, and is never both failed and withdrawn. */
  lemma TransferOnce(steps: seq<Step>, t: string)
    ensures var log := After(steps).log;
            Count(log, Completed, t) <= Count(log, Deposited, t) <= Count(log, Withdrawn, t) <= 1 &&
            Count(log, Withdrawn, t) + Count(log, Failed, t) <= Count(log, Started, t) <= 1
  {
    RunKeepsInv(steps);
    LegsInOrder(After(steps), t);
  }

  /** The legs of a transfer are on its accounts and over its amount. */
  lemma LegsFit(steps: seq<Step>, i: nat, t: string)
    requires i < |After(steps).log|
    ensures var log := After(steps).log;
            (Is(log[i], Withdrawn, t) ==> log[i].id == TransferOf(log, t).fromAccountId && log[i].event.amount == TransferOf(log, t).amount) &&
            (Is(log[i], Deposited, t) ==> log[i].id == TransferOf(log, t).toAccountId && log[i].event.amount == TransferOf(log, t).amount)
  {
    hide After, TransferOf, WellFormed, Flowing;
    RunKeepsInv(steps);
    LegFitsLater(After(steps).log, i, t);
  }

  lemma LegFitsStable(log: seq<Entry>, i: nat, id: string, event: AccountEvent)
    requires WellFormed(log) && i <= |log| && LegFits(log[..i], id, event)
    ensures LegFits(log, id, event)
  {
    var t := match event
      case WithdrawalCompleted(t, _, _) => t
      case DepositCompleted(t, _, _) => t
      case AccountWithdrawn(_, _, tid) => tid.value
      case AccountDeposited(_, _, tid) => tid.value;
    TermsStable(log, i, t);
    hide WellFormed, TransferEvents, TransactionAfter;
  }

  lemma LegFitsLater(log: seq<Entry>, i: nat, t: string)
    requires WellFormed(log) && i < |log|
    ensures Is(log[i], Withdrawn, t) ==> log[i].id == TransferOf(log, t).fromAccountId && log[i].event.amount == TransferOf(log, t).amount
    ensures Is(log[i], Deposited, t) ==> log[i].id == TransferOf(log, t).toAccountId && log[i].event.amount == TransferOf(log, t).amount
  {
    hide *;
    WellFormedPrefix(log, i);
    AdmissibleLeg(log[..i], log[i]);
    if log[i].OnAccount? && log[i].byChain { LegFitsStable(log, i, log[i].id, log[i].event); }
    LegFitsMeans(log, log[i], t);
  }

  lemma AdmissibleLeg(log: seq<Entry>, e: Entry)
    requires Admissible(log, e)
    ensures e.OnAccount? && e.byChain ==> LegFits(log, e.id, e.event)
  {
    hide LegFits, Legal, TransferEvents;
  }

  lemma LegFitsMeans(log: seq<Entry>, e: Entry, t: string)
    requires e.OnAccount? && e.byChain ==> LegFits(log, e.id, e.event)
    ensures Is(e, Withdrawn, t) ==> e.id == TransferOf(log, t).fromAccountId && e.event.amount == TransferOf(log, t).amount
    ensures Is(e, Deposited, t) ==> e.id == TransferOf(log, t).toAccountId && e.event.amount == TransferOf(log, t).amount
  {
    hide TransferOf, TransferEvents;
  }

  /** Transfer completion: once every projection has passed the whole log, each
      started transfer is completed with one withdrawal and one deposit, or
      failed with neither. */
  lemma QuiescentTransfers(steps: seq<Step>, t: string)
    requires var s := After(steps); s.cps == Checkpoints(|s.log|, |s.log|, |s.log|)
    requires Count(After(steps).log, Started, t) > 0
    ensures var log := After(steps).log;
            (Count(log, Completed, t) == Count(log, Withdrawn, t) == Count(log, Deposited, t) == 1 && Count(log, Failed, t) == 0) ||
            (Count(log, Completed, t) == Count(log, Withdrawn, t) == Count(log, Deposited, t) == 0 && Count(log, Failed, t) == 1)
  {
    RunKeepsInv(steps);
    Quiescent(After(steps), t);
  }

  lemma Quiescent(s: State, t: string)
    requires Inv(s) && s.cps == Checkpoints(|s.log|, |s.log|, |s.log|) && Count(s.log, Started, t) > 0
    ensures (Count(s.log, Completed, t) == Count(s.log, Withdrawn, t) == Count(s.log, Deposited, t) == 1 && Count(s.log, Failed, t) == 0) ||
            (Count(s.log, Completed, t) == Count(s.log, Withdrawn, t) == Count(s.log, Deposited, t) == 0 && Count(s.log, Failed, t) == 1)
  {
    assert Flowing(s.log, s.cps, t);
    assert s.log[..|s.log|] == s.log;
    hide Count;
  }

  // ---------------------------------------------------------------------------
  // What the invariant means: money
  // ---------------------------------------------------------------------------

  /** Every account stream of the log is a ledger that was opened when empty. */
  lemma {:induction false} StreamsAreLedgers(log: seq<Entry>, id: string)
    requires WellFormed(log)
    ensures Ledger(AccountEvents(log, id)) && OpensAtZero(AccountEvents(log, id))
  {
    if log != [] {
      var init, last := log[..|log| - 1], log[|log| - 1];
      StreamsAreLedgers(init, id);
      var es := AccountEvents(init, id);
      if last.OnAccount? && last.id == id {
        assert (es + [last.event])[..|es|] == es;
      } else {
        assert es + [] == es;
      }
    }
  }

  /** Ledger agreement for the whole system: with any number of concurrent
      writers, transfers and rolled-back batches, every balance of every account
      is its opening plus deposits minus withdrawals so far. */
  lemma BalancesAgree(steps: seq<Step>, id: string)
    ensures Agrees(AccountEvents(After(steps).log, id))
  {
    RunKeepsInv(steps);
    StreamsAreLedgers(After(steps).log, id);
    LedgerAgreement(AccountEvents(After(steps).log, id));
  }

  /** What is added up: the balance of an account, what the legs of a transfer
      have taken and not put back, or the amount of a transfer that is withdrawn
      and not yet deposited. */
  datatype Quantity = Balance | Held | InTransit

  function Value(q: Quantity, log: seq<Entry>, id: string): real
  {
    match q
    case Balance => AccountIn(log, id).balance
    case Held => HeldFor(log, id)
    case InTransit => if Count(log, Withdrawn, id) > Count(log, Deposited, id) then TransferOf(log, id).amount else 0.0
  }

  function Sum(q: Quantity, log: seq<Entry>, ids: seq<string>): real
  {
    if ids == [] then 0.0 else Sum(q, log, ids[..|ids| - 1]) + Value(q, log, ids[|ids| - 1])
  }

  /** A sum over distinct ids changes by what one id's value changes. */
  lemma {:induction false} SumShifts(q: Quantity, log: seq<Entry>, after: seq<Entry>, ids: seq<string>, id: string, d: real)
    requires Distinct(ids)
    requires forall x :: Value(q, after, x) == Value(q, log, x) + if x == id then d else 0.0
    ensures Sum(q, after, ids) == Sum(q, log, ids) + if id in ids then d else 0.0
  {
    hide Value;
    if ids != [] {
      var n := |ids| - 1;
      SumShifts(q, log, after, ids[..n], id, d);
      assert id in ids <==> id in ids[..n] || id == ids[n];
    }
  }

  lemma {:induction false} SumSame(q: Quantity, r: Quantity, log: seq<Entry>, ids: seq<string>)
    requires forall x :: Value(q, log, x) == Value(r, log, x)
    ensures Sum(q, log, ids) == Sum(r, log, ids)
  {
    hide Value;
    if ids != [] { SumSame(q, r, log, ids[..|ids| - 1]); }
  }

  lemma {:induction false} SumOfNothing(q: Quantity, ids: seq<string>)
    ensures Sum(q, [], ids) == 0.0
  {
    if ids != [] { SumOfNothing(q, ids[..|ids| - 1]); }
  }

  /** What a transfer leg takes out of the accounts, or puts back. */
  function LegValue(e: Entry): real
  {
    if e.OnAccount? && e.byChain then -Flow(e.event) else 0.0
  }

  /** What the legs of one transfer hold. */
  function HeldFor(log: seq<Entry>, t: string): real
  {
    if log == [] then 0.0
    else
      var last := log[|log| - 1];
      HeldFor(log[..|log| - 1], t) + if Is(last, Withdrawn, t) || Is(last, Deposited, t) then LegValue(last) else 0.0
  }

  function InHand(log: seq<Entry>): real
  {
    if log == [] then 0.0 else InHand(log[..|log| - 1]) + LegValue(log[|log| - 1])
  }

  /** Money that came in from outside minus money that left: openings, deposits
      and withdrawals that no projection made. */
  function Outside(log: seq<Entry>): real
  {
    if log == [] then 0.0
    else
      var last := log[|log| - 1];
      Outside(log[..|log| - 1]) + if last.OnAccount? && !last.byChain then Flow(last.event) else 0.0
  }

  function EntryFlow(e: Entry): (r: real)
    ensures r == (if e.OnAccount? && !e.byChain then Flow(e.event) else 0.0) - LegValue(e)
  {
    if e.OnAccount? then Flow(e.event) else 0.0
  }

  ghost predicate CoversAccounts(log: seq<Entry>, ids: seq<string>)
  {
    Distinct(ids) && forall id | AccountEvents(log, id) != [] :: id in ids
  }

  ghost predicate CoversTransfers(log: seq<Entry>, ts: seq<string>)
  {
    Distinct(ts) && forall t | TransferEvents(log, t) != [] :: t in ts
  }

  lemma CoversShorter(log: seq<Entry>, ids: seq<string>)
    requires log != []
    ensures CoversAccounts(log, ids) ==>
              CoversAccounts(log[..|log| - 1], ids) && (log[|log| - 1].OnAccount? ==> log[|log| - 1].id in ids)
    ensures CoversTransfers(log, ids) ==> CoversTransfers(log[..|log| - 1], ids)
  {
    hide Distinct;
    var init, last := log[..|log| - 1], log[|log| - 1];
    Extended(init, last);
    assert init + [last] == log;
    assert last.OnAccount? ==> AccountEvents(log, last.id) != [];
  }

  lemma FlowMoves(a: AccountState, e: AccountEvent)
    requires Legal(a, e) && (e.AccountOpened? ==> a.balance == 0.0)
    ensures Handle(a, e).balance == a.balance + Flow(e)
  {
  }

  lemma BalanceMoves(log: seq<Entry>, e: Entry, id: string)
    requires Admissible(log, e)
    ensures Value(Balance, log + [e], id) == Value(Balance, log, id) + if id == e.id then EntryFlow(e) else 0.0
  {
    var es := AccountEvents(log, id);
    assert (log + [e])[..|log|] == log;
    if e.OnAccount? && e.id == id {
      assert (es + [e.event])[..|es|] == es;
      FlowMoves(AccountIn(log, id), e.event);
    } else {
      assert es + [] == es;
    }
  }

  /** The accounts hold what came in from outside less what the legs hold. */
  lemma {:induction false} AccountsHold(log: seq<Entry>, ids: seq<string>)
    requires WellFormed(log) && CoversAccounts(log, ids)
    ensures Sum(Balance, log, ids) == Outside(log) - InHand(log)
  {
    if log == [] {
      SumOfNothing(Balance, ids);
    } else {
      var init, last := log[..|log| - 1], log[|log| - 1];
      assert init + [last] == log;
      CoversShorter(log, ids);
      AccountsHold(init, ids);
      assert last.OnTransaction? ==> EntryFlow(last) == 0.0;
      hide Value, Sum, Admissible, EntryFlow, LegValue, Flow;
      forall x ensures Value(Balance, log, x) == Value(Balance, init, x) + if x == last.id then EntryFlow(last) else 0.0 {
        BalanceMoves(init, last, x);
      }
      SumShifts(Balance, init, log, ids, last.id, EntryFlow(last));
    }
  }

  /** The transfer that a leg belongs to. */
  function LegOf(e: Entry): Option<string>
  {
    if e.OnAccount? && e.byChain && (e.event.AccountWithdrawn? || e.event.AccountDeposited?) then e.event.transactionId else None
  }

  lemma HeldMoves(log: seq<Entry>, e: Entry, t: string)
    ensures Value(Held, log + [e], t) == Value(Held, log, t) + if LegOf(e) == Some(t) then LegValue(e) else 0.0
  {
    assert (log + [e])[..|log|] == log;
    hide LegValue;
  }

  lemma LegKnown(log: seq<Entry>, e: Entry)
    requires Admissible(log, e)
    ensures LegOf(e).Some? ==> TransferEvents(log, LegOf(e).value) != []
    ensures LegOf(e).None? ==> LegValue(e) == 0.0
  {
    hide AccountIn, TransferOf, Legal, TransferEvents;
  }

  /** What all legs hold is the sum over the transfers. */
  lemma {:induction false} LegsHold(log: seq<Entry>, ts: seq<string>)
    requires WellFormed(log) && CoversTransfers(log, ts)
    ensures Sum(Held, log, ts) == InHand(log)
  {
    if log == [] {
      SumOfNothing(Held, ts);
    } else {
      var init, last := log[..|log| - 1], log[|log| - 1];
      assert init + [last] == log;
      CoversShorter(log, ts);
      LegsHold(init, ts);
      var t := if LegOf(last).Some? then LegOf(last).value else "";
      LegKnown(init, last);
      hide Value, Sum, Admissible, LegValue, LegOf;
      forall x ensures Value(Held, log, x) == Value(Held, init, x) + if x == t then LegValue(last) else 0.0 {
        HeldMoves(init, last, x);
      }
      SumShifts(Held, init, log, ts, t, LegValue(last));
    }
  }

  /** n legs of an amount, counted with their sign. */
  function Times(n: int, amount: real): real
  {
    n as real * amount
  }

  lemma OneMore(n: int, amount: real)
    ensures Times(n + 1, amount) == Times(n, amount) + amount
    ensures Times(n - 1, amount) == Times(n, amount) - amount
    ensures Times(0, amount) == 0.0 && Times(1, amount) == amount
  {
  }

  ghost predicate LegsOver(log: seq<Entry>, t: string, amount: real)
  {
    forall i | 0 <= i < |log| && (Is(log[i], Withdrawn, t) || Is(log[i], Deposited, t)) :: log[i].event.amount == amount
  }

  lemma LegsOverAmount(log: seq<Entry>, t: string)
    requires WellFormed(log)
    ensures LegsOver(log, t, TransferOf(log, t).amount)
  {
    forall i | 0 <= i < |log| && (Is(log[i], Withdrawn, t) || Is(log[i], Deposited, t))
      ensures log[i].event.amount == TransferOf(log, t).amount
    {
      LegFitsLater(log, i, t);
    }
  }

  lemma {:induction false} HeldCounts(log: seq<Entry>, t: string, amount: real)
    requires LegsOver(log, t, amount)
    ensures HeldFor(log, t) == Times(Count(log, Withdrawn, t) - Count(log, Deposited, t), amount)
  {
    OneMore(0, amount);
    if log != [] {
      var init := log[..|log| - 1];
      HeldCounts(init, t, amount);
      OneMore(Count(init, Withdrawn, t) - Count(init, Deposited, t), amount);
      hide Times;
    }
  }

  lemma LegsInOrder(s: State, t: string)
    requires Inv(s)
    ensures Count(s.log, Completed, t) <= Count(s.log, Deposited, t) <= Count(s.log, Withdrawn, t)
    ensures Count(s.log, Withdrawn, t) + Count(s.log, Failed, t) <= Count(s.log, Started, t) <= 1
  {
    assert Flowing(s.log, s.cps, t);
    CountPrefix(s.log, s.cps.withdrawal, Started, t);
    CountPrefix(s.log, s.cps.deposit, WithdrawnMark, t);
    CountPrefix(s.log, s.cps.completion, DepositedMark, t);
    hide Count;
  }

  lemma {:induction false} JustInitiated(log: seq<Entry>, t: string)
    requires forall i | 0 <= i < |TransferEvents(log, t)| :: TransferEvents(log, t)[i].TransactionInitiated?
    ensures Count(log, Started, t) == Count(log, Failed, t) == Count(log, Completed, t) == 0
  {
    if log != [] {
      var init, last := log[..|log| - 1], log[|log| - 1];
      var es := TransferEvents(init, t);
      if last.OnTransaction? && last.id == t {
        assert TransferEvents(log, t)[|es|] == last.change;
      }
      forall i | 0 <= i < |es| ensures es[i].TransactionInitiated? { assert TransferEvents(log, t)[i] == es[i]; }
      JustInitiated(init, t);
    }
  }

  lemma StatusMoves(log: seq<Entry>, e: Entry, t: string)
    ensures TransferOf(log + [e], t) == if e.OnTransaction? && e.id == t then HandleTransaction(TransferOf(log, t), e.change) else TransferOf(log, t)
  {
    Extended(log, e);
    var es := TransferEvents(log, t);
    hide TransferEvents, HandleTransaction;
    if e.OnTransaction? && e.id == t {
      assert (es + [e.change])[..|es|] == es;
    } else {
      assert es + [] == es;
    }
  }

  lemma {:induction false} StatusByCounts(log: seq<Entry>, t: string)
    requires WellFormed(log) && Count(log, Completed, t) + Count(log, Failed, t) <= 1
    ensures TransferOf(log, t).status == if Count(log, Completed, t) > 0 then InCompleted
                                         else if Count(log, Failed, t) > 0 then InFailed
                                         else if Count(log, Started, t) > 0 then InStarted else InPending
  {
    if log != [] {
      var init, last := log[..|log| - 1], log[|log| - 1];
      StatusByCounts(init, t);
      assert Admissible(init, last) && log == init + [last];
      assert forall k :: Count(log, k, t) == Count(init, k, t) + if Is(last, k, t) then 1 else 0;
      if last.OnTransaction? && last.id == t && (last.change.TransactionInitiated? || last.change.TransactionStarted?) { JustInitiated(init, t); }
      hide WellFormed, Count, Admissible;
      StatusMoves(init, last, t);
    }
  }

  /** A transfer's own status is what has happened to it: completed or failed exactly
      if it has the one event that says so, started exactly if it was and has neither. */
  lemma StatusAgrees(steps: seq<Step>, t: string)
    ensures var log := After(steps).log;
            (TransferOf(log, t).status == InCompleted <==> Count(log, Completed, t) == 1) &&
            (TransferOf(log, t).status == InFailed <==> Count(log, Failed, t) == 1) &&
            (TransferOf(log, t).status == InPending <==> Count(log, Started, t) == 0)
  {
    RunKeepsInv(steps);
    var s := After(steps);
    LegsInOrder(s, t);
    StatusByCounts(s.log, t);
    hide Inv, Count, TransferOf;
  }

  lemma HeldIsInTransit(s: State, t: string)
    requires Inv(s)
    ensures Value(Held, s.log, t) == Value(InTransit, s.log, t)
  {
    var amount := TransferOf(s.log, t).amount;
    LegsOverAmount(s.log, t);
    LegsInOrder(s, t);
    hide Count, Inv, HeldFor, TransferOf, LegsOver;
    HeldCounts(s.log, t, amount);
    OneMore(0, amount);
    hide Times;
  }

  /** Money conservation: after any run of account commands, transfer starts and
      catch-up batches, concurrent or rolled back, what all accounts hold plus
      what is withdrawn but not yet deposited is exactly what came in from
      outside minus what left. */
  lemma MoneyConserved(steps: seq<Step>, ids: seq<string>, ts: seq<string>)
    requires CoversAccounts(After(steps).log, ids) && CoversTransfers(After(steps).log, ts)
    ensures var log := After(steps).log; Sum(Balance, log, ids) + Sum(InTransit, log, ts) == Outside(log)
  {
    RunKeepsInv(steps);
    var s := After(steps);
    AccountsHold(s.log, ids);
    LegsHold(s.log, ts);
    hide CoversAccounts, CoversTransfers, Value, Sum, Inv;
    forall t ensures Value(Held, s.log, t) == Value(InTransit, s.log, t) { HeldIsInTransit(s, t); }
    SumSame(Held, InTransit, s.log, ts);
  }

  /** Only the checkpoint keeps a transfer from being withdrawn again: handling its
      start a second time takes the amount once more exactly when the account
      still has it. */
  lemma SecondHandlingWithdraws(log: seq<Entry>, i: nat, t: string)
    requires WellFormed(log) && i < |log| && Is(log[i], Started, t)
    ensures AccountIn(log, log[i].change.fromAccountId).balance >= log[i].change.amount <==>
            Reaction(WithdrawalHandler, Whole(log), log[i]).Some? &&
            Count(log + Reaction(WithdrawalHandler, Whole(log), log[i]).value, Withdrawn, t) == Count(log, Withdrawn, t) + 1
  {
    var from, amount := log[i].change.fromAccountId, log[i].change.amount;
    AmountPositive(log, i, t);
    StreamsAreLedgers(log, from);
    OpenUnlessEmpty(AccountEvents(log, from));
    hide WellFormed, Ledger, OpensAtZero, AccountAfter, AccountEvents, TransferEvents, TransactionAfter;
    var r := Reaction(WithdrawalHandler, Whole(log), log[i]);
    assert r.Some? && |r.value| == 2 <==> AccountIn(log, from).balance >= amount;
    hide Reaction, Count;
    if r.Some? { WithdrawnAgain(log, log[i], t, r.value); }
  }

  lemma WithdrawnAgain(log: seq<Entry>, e: Entry, t: string, r: seq<Entry>)
    requires Reaction(WithdrawalHandler, Whole(log), e) == Some(r) && Is(e, Started, t)
    ensures Count(log + r, Withdrawn, t) == Count(log, Withdrawn, t) + if |r| == 2 then 1 else 0
  {
    ReactionShape(WithdrawalHandler, Whole(log), e);
    if |r| == 2 { LegDecided(WithdrawalHandler, Whole(log), e); }
    hide Reaction, Count;
    CountConcat(log, r, Withdrawn, t);
    ShortCount(r, Withdrawn, t);
  }

  lemma AmountPositive(log: seq<Entry>, i: nat, t: string)
    requires WellFormed(log) && i < |log| && Is(log[i], Started, t)
    ensures log[i].change.amount > 0.0
  {
    WellFormedPrefix(log, i);
    InitiatedPositive(log[..i], t);
    assert TransferEvents(log[..i], t)[0].amount == log[i].change.amount;
  }

  lemma {:induction false} InitiatedPositive(log: seq<Entry>, t: string)
    requires WellFormed(log)
    ensures forall k | 0 <= k < |TransferEvents(log, t)| && TransferEvents(log, t)[k].TransactionInitiated? ::
              TransferEvents(log, t)[k].amount > 0.0
  {
    if log != [] { InitiatedPositive(log[..|log| - 1], t); }
  }

  lemma {:induction false} OpenUnlessEmpty(es: seq<AccountEvent>)
    requires Ledger(es)
    ensures AccountAfter(es).isClosed ==> AccountAfter(es).balance == 0.0
  {
    if es != [] { OpenUnlessEmpty(es[..|es| - 1]); }
  }
}
