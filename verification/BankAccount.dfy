/** The account aggregate and its ledger
    (examples/banking-api/src/domain/account.aggregate.ts). */
module BankAccount {
  import opened Wrappers
  import opened Aggregates

  datatype AccountEvent =
    | AccountOpened(customerId: string, initialBalance: real)
    | AccountDeposited(amount: real, balance: real, transactionId: Option<string>)
    | AccountWithdrawn(amount: real, balance: real, transactionId: Option<string>)
    | WithdrawalCompleted(transfer: string, amount: real, balance: real)
    | DepositCompleted(transfer: string, amount: real, balance: real)
    | AccountTransferredOut(amount: real, balance: real, transactionId: Option<string>)
    | AccountTransferredIn(amount: real, balance: real, transactionId: Option<string>)
    | AccountClosed(reason: string)

  /** The state that decides; an empty customer id counts as not opened. */
  datatype AccountState = AccountState(customerId: string, balance: real, isClosed: bool)

  const NEW_ACCOUNT := AccountState("", 0.0, false)

  function Handle(s: AccountState, e: AccountEvent): AccountState
  {
    match e
    case AccountOpened(customerId, initialBalance) => AccountState(customerId, initialBalance, false)
    case AccountClosed(_) => s.(isClosed := true)
    case _ => s.(balance := e.balance)
  }

  const HANDLERS: Handlers<AccountState, AccountEvent> := (s, e) => Some(Handle(s, e))

  datatype Command =
    | Open(customerId: string, initialBalance: real)
    | Deposit(amount: real, transactionId: Option<string>)
    | Withdraw(amount: real, transactionId: Option<string>)
    | TransferOut(amount: real, transactionId: Option<string>)
    | TransferIn(amount: real, transactionId: Option<string>)
    | Close(reason: string)

  datatype CommandError = AccountIsClosed | AlreadyOpened | AmountNotPositive | InsufficientFunds | BalanceNotZero

  /** The event a command raises in a state, or the error it throws. */
  function Decide(s: AccountState, c: Command): Result<AccountEvent, CommandError>
  {
    if s.isClosed then Err(AccountIsClosed)
    else
      match c
      case Open(customerId, initialBalance) =>
        if s.customerId != "" then Err(AlreadyOpened) else Ok(AccountOpened(customerId, initialBalance))
      case Deposit(amount, t) =>
        if amount <= 0.0 then Err(AmountNotPositive) else Ok(AccountDeposited(amount, s.balance + amount, t))
      case Withdraw(amount, t) =>
        if amount <= 0.0 then Err(AmountNotPositive)
        else if s.balance < amount then Err(InsufficientFunds)
        else Ok(AccountWithdrawn(amount, s.balance - amount, t))
      case TransferOut(amount, t) =>
        if amount <= 0.0 then Err(AmountNotPositive)
        else if s.balance < amount then Err(InsufficientFunds)
        else Ok(AccountTransferredOut(amount, s.balance - amount, t))
      case TransferIn(amount, t) =>
        if amount <= 0.0 then Err(AmountNotPositive) else Ok(AccountTransferredIn(amount, s.balance + amount, t))
      case Close(reason) =>
        if s.balance != 0.0 then Err(BalanceNotZero) else Ok(AccountClosed(reason))
  }

  class AccountAggregate {
    const root: AggregateRoot<AccountState, AccountEvent>

    constructor (id: string)
      ensures fresh(root) && root.handlers == HANDLERS && root.id == id
      ensures root.version == 0 && root.state == NEW_ACCOUNT && root.pending == []
    {
      root := new AggregateRoot(id, NEW_ACCOUNT, HANDLERS);
    }

    /** A raised event changes the state and is pending; an error changes nothing. */
    twostate predicate Decided(c: Command, new r: Result<AccountEvent, CommandError>)
      reads root
    {
      r == Decide(old(root.state), c) && root.version == old(root.version) &&
      root.state == (if r.Ok? then Handle(old(root.state), r.value) else old(root.state)) &&
      root.pending == old(root.pending) + if r.Ok? then [r.value] else []
    }

    method Raise(e: AccountEvent)
      requires root.handlers == HANDLERS
      modifies root
      ensures root.state == Handle(old(root.state), e) && root.pending == old(root.pending) + [e]
      ensures root.version == old(root.version)
    {
      var n := root.Raise([e]);
      assert [e][..1] == [e] && [e][..0] == [];
    }

    method Open(customerId: string, initialBalance: real) returns (r: Result<AccountEvent, CommandError>)
      requires root.handlers == HANDLERS
      modifies root
      ensures Decided(Command.Open(customerId, initialBalance), r)
    {
      if root.state.isClosed { return Err(AccountIsClosed); }
      if root.state.customerId != "" { return Err(AlreadyOpened); }
      var e := AccountOpened(customerId, initialBalance);
      Raise(e);
      return Ok(e);
    }

    method Deposit(amount: real, transactionId: Option<string>) returns (r: Result<AccountEvent, CommandError>)
      requires root.handlers == HANDLERS
      modifies root
      ensures Decided(Command.Deposit(amount, transactionId), r)
    {
      if root.state.isClosed { return Err(AccountIsClosed); }
      if amount <= 0.0 { return Err(AmountNotPositive); }
      var newBalance := root.state.balance + amount;
      var e := AccountDeposited(amount, newBalance, transactionId);
      Raise(e);
      return Ok(e);
    }

    method Withdraw(amount: real, transactionId: Option<string>) returns (r: Result<AccountEvent, CommandError>)
      requires root.handlers == HANDLERS
      modifies root
      ensures Decided(Command.Withdraw(amount, transactionId), r)
    {
      if root.state.isClosed { return Err(AccountIsClosed); }
      if amount <= 0.0 { return Err(AmountNotPositive); }
      if root.state.balance < amount { return Err(InsufficientFunds); }
      var newBalance := root.state.balance - amount;
      var e := AccountWithdrawn(amount, newBalance, transactionId);
      Raise(e);
      return Ok(e);
    }

    method TransferOut(amount: real, transactionId: Option<string>) returns (r: Result<AccountEvent, CommandError>)
      requires root.handlers == HANDLERS
      modifies root
      ensures Decided(Command.TransferOut(amount, transactionId), r)
    {
      if root.state.isClosed { return Err(AccountIsClosed); }
      if amount <= 0.0 { return Err(AmountNotPositive); }
      if root.state.balance < amount { return Err(InsufficientFunds); }
      var newBalance := root.state.balance - amount;
      var e := AccountTransferredOut(amount, newBalance, transactionId);
      Raise(e);
      return Ok(e);
    }

    method TransferIn(amount: real, transactionId: Option<string>) returns (r: Result<AccountEvent, CommandError>)
      requires root.handlers == HANDLERS
      modifies root
      ensures Decided(Command.TransferIn(amount, transactionId), r)
    {
      if root.state.isClosed { return Err(AccountIsClosed); }
      if amount <= 0.0 { return Err(AmountNotPositive); }
      var newBalance := root.state.balance + amount;
      var e := AccountTransferredIn(amount, newBalance, transactionId);
      Raise(e);
      return Ok(e);
    }

    method Close(reason: string) returns (r: Result<AccountEvent, CommandError>)
      requires root.handlers == HANDLERS
      modifies root
      ensures Decided(Command.Close(reason), r)
    {
      if root.state.isClosed { return Err(AccountIsClosed); }
      if root.state.balance != 0.0 { return Err(BalanceNotZero); }
      var e := AccountClosed(reason);
      Raise(e);
      return Ok(e);
    }
  }

  // ---------------------------------------------------------------------------
  // The ledger of one account stream
  // ---------------------------------------------------------------------------

  /** The account after its events. */
  function AccountAfter(es: seq<AccountEvent>): AccountState
  {
    if es == [] then NEW_ACCOUNT else Handle(AccountAfter(es[..|es| - 1]), es[|es| - 1])
  }

  lemma {:induction false} ReplayIsAccountAfter(es: seq<AccountEvent>)
    ensures Replay(HANDLERS, NEW_ACCOUNT, es) == Some(AccountAfter(es))
  {
    if es != [] { ReplayIsAccountAfter(es[..|es| - 1]); }
  }

  /** The events that the commands, and the two steps of a transfer, can add. */
  predicate Legal(s: AccountState, e: AccountEvent)
  {
    !s.isClosed &&
    match e
    case AccountOpened(_, _) => s.customerId == ""
    case AccountDeposited(amount, balance, _) => amount > 0.0 && balance == s.balance + amount
    case AccountTransferredIn(amount, balance, _) => amount > 0.0 && balance == s.balance + amount
    case AccountWithdrawn(amount, balance, _) => 0.0 < amount <= s.balance && balance == s.balance - amount
    case AccountTransferredOut(amount, balance, _) => 0.0 < amount <= s.balance && balance == s.balance - amount
    case WithdrawalCompleted(_, _, balance) => balance == s.balance
    case DepositCompleted(_, _, balance) => balance == s.balance
    case AccountClosed(_) => s.balance == 0.0
  }

  lemma DecidedIsLegal(s: AccountState, c: Command)
    ensures Decide(s, c).Ok? ==> Legal(s, Decide(s, c).value)
  {
  }

  /** Which commands go through. A closed account refuses every one with that error, and
      otherwise the first test that fails is the one reported; a withdrawal of what
      was just paid in leaves the balance as it was. */
  lemma CommandsAccepted(s: AccountState, customerId: string, initialBalance: real, amount: real, t: Option<string>, reason: string)
    ensures s.isClosed ==> forall c :: Decide(s, c) == Err(AccountIsClosed)
    ensures Decide(s, Open(customerId, initialBalance)).Ok? <==> !s.isClosed && s.customerId == ""
    ensures Decide(s, Deposit(amount, t)).Ok? <==> !s.isClosed && amount > 0.0
    ensures Decide(s, TransferIn(amount, t)).Ok? <==> !s.isClosed && amount > 0.0
    ensures Decide(s, Withdraw(amount, t)).Ok? <==> !s.isClosed && 0.0 < amount <= s.balance
    ensures Decide(s, TransferOut(amount, t)).Ok? <==> !s.isClosed && 0.0 < amount <= s.balance
    ensures Decide(s, Close(reason)).Ok? <==> !s.isClosed && s.balance == 0.0
    ensures !s.isClosed && amount <= 0.0 ==>
              Decide(s, Withdraw(amount, t)) == Decide(s, TransferOut(amount, t)) == Err(AmountNotPositive)
    ensures !s.isClosed && amount > 0.0 && s.balance >= 0.0 ==>
              var paid := Handle(s, Decide(s, Deposit(amount, t)).value);
              var moved := Handle(s, Decide(s, TransferIn(amount, t)).value);
              Decide(paid, Withdraw(amount, t)).Ok? && Handle(paid, Decide(paid, Withdraw(amount, t)).value) == s &&
              Decide(moved, TransferOut(amount, t)).Ok? && Handle(moved, Decide(moved, TransferOut(amount, t)).value) == s
  {
  }

  ghost predicate Ledger(es: seq<AccountEvent>)
  {
    es == [] || (Ledger(es[..|es| - 1]) && Legal(AccountAfter(es[..|es| - 1]), es[|es| - 1]))
  }

  /** Money that an event brings in or takes out. */
  function Flow(e: AccountEvent): real
  {
    match e
    case AccountOpened(_, initialBalance) => initialBalance
    case AccountDeposited(amount, _, _) => amount
    case AccountTransferredIn(amount, _, _) => amount
    case AccountWithdrawn(amount, _, _) => -amount
    case AccountTransferredOut(amount, _, _) => -amount
    case _ => 0.0
  }

  function TotalFlow(es: seq<AccountEvent>): real
  {
    if es == [] then 0.0 else TotalFlow(es[..|es| - 1]) + Flow(es[|es| - 1])
  }

  /** At every point of the stream the balance is openings plus deposits minus
      withdrawals so far. */
  predicate Agrees(es: seq<AccountEvent>)
  {
    AccountAfter(es).balance == TotalFlow(es) && (es == [] || Agrees(es[..|es| - 1]))
  }

  /** No opening event overwrites money that is already there. */
  predicate OpensAtZero(es: seq<AccountEvent>)
  {
    es == [] ||
    ((es[|es| - 1].AccountOpened? ==> AccountAfter(es[..|es| - 1]).balance == 0.0) && OpensAtZero(es[..|es| - 1]))
  }

  /** Ledger agreement: the recorded balances are openings plus deposits minus
      withdrawals exactly when no opening overwrites a balance. */
  lemma {:induction false} LedgerAgreement(es: seq<AccountEvent>)
    requires Ledger(es)
    ensures Agrees(es) <==> OpensAtZero(es)
  {
    if es != [] { LedgerAgreement(es[..|es| - 1]); }
  }

  /** No balance is ever negative exactly when no opening balance is. */
  lemma {:induction false} NeverNegative(es: seq<AccountEvent>)
    requires Ledger(es)
    ensures (forall k | 0 <= k <= |es| :: AccountAfter(es[..k]).balance >= 0.0) <==>
            (forall k | 0 <= k < |es| && es[k].AccountOpened? :: es[k].initialBalance >= 0.0)
  {
    if forall k | 0 <= k <= |es| :: AccountAfter(es[..k]).balance >= 0.0 {
      forall k | 0 <= k < |es| && es[k].AccountOpened? ensures es[k].initialBalance >= 0.0 {
        assert es[..k + 1][..k] == es[..k];
        assert AccountAfter(es[..k + 1]).balance >= 0.0;
      }
    }
    if forall k | 0 <= k < |es| && es[k].AccountOpened? :: es[k].initialBalance >= 0.0 {
      forall k | 0 <= k <= |es| ensures AccountAfter(es[..k]).balance >= 0.0 { PrefixNotNegative(es, k); }
    }
  }

  lemma {:induction false} PrefixNotNegative(es: seq<AccountEvent>, k: nat)
    requires Ledger(es) && k <= |es| && forall i | 0 <= i < |es| && es[i].AccountOpened? :: es[i].initialBalance >= 0.0
    ensures AccountAfter(es[..k]).balance >= 0.0
    decreases |es|, k
  {
    if k < |es| {
      var init := es[..|es| - 1];
      assert init[..k] == es[..k];
      PrefixNotNegative(init, k);
    } else if k > 0 {
      var init := es[..|es| - 1];
      assert es[..k] == es && init[..k - 1] == init;
      PrefixNotNegative(init, k - 1);
    }
  }

  /** A closed account is empty, and its close is the last thing that happens to it. */
  lemma {:induction false} ClosedForever(es: seq<AccountEvent>, k: nat)
    requires Ledger(es) && k < |es| && es[k].AccountClosed?
    ensures k == |es| - 1 && AccountAfter(es).isClosed && AccountAfter(es).balance == 0.0
  {
    if k < |es| - 1 {
      ClosedForever(es[..|es| - 1], k);
    }
  }

  /** An account belongs to the customer of its last opening, and to nobody without
      one; it is closed exactly if a close is among its events. */
  lemma {:induction false} AccountMeans(es: seq<AccountEvent>)
    requires Ledger(es)
    ensures AccountAfter(es).isClosed <==> exists k :: 0 <= k < |es| && es[k].AccountClosed?
    ensures (forall k | 0 <= k < |es| :: !es[k].AccountOpened?) ==> AccountAfter(es).customerId == ""
    ensures forall k | 0 <= k < |es| && es[k].AccountOpened? ::
              (forall j | k < j < |es| :: !es[j].AccountOpened?) ==> AccountAfter(es).customerId == es[k].customerId
  {
    if es != [] {
      var init := es[..|es| - 1];
      AccountMeans(init);
      assert forall k | 0 <= k < |init| :: init[k] == es[k];
    }
  }

  // ---------------------------------------------------------------------------
  // Concurrent writers
  // ---------------------------------------------------------------------------

  /** A load-decide-append: the writer loaded the first seen events. */
  datatype Attempt = Attempt(seen: nat, command: Command)

  /** The stream after an attempt that passes the version gate, or unchanged. */
  function Attempted(es: seq<AccountEvent>, a: Attempt, gated: bool): seq<AccountEvent>
  {
    if a.seen > |es| || (gated && a.seen != |es|) then es
    else
      var decision := Decide(AccountAfter(es[..a.seen]), a.command);
      if decision.Ok? then es + [decision.value] else es
  }

  function AfterAttempts(attempts: seq<Attempt>, gated: bool): seq<AccountEvent>
  {
    if attempts == [] then []
    else Attempted(AfterAttempts(attempts[..|attempts| - 1], gated), attempts[|attempts| - 1], gated)
  }

  /** Any number of concurrent writers keep the ledger. */
  lemma {:induction false} WritersKeepLedger(attempts: seq<Attempt>)
    ensures Ledger(AfterAttempts(attempts, true))
  {
    if attempts != [] {
      var es := AfterAttempts(attempts[..|attempts| - 1], true);
      var a := attempts[|attempts| - 1];
      WritersKeepLedger(attempts[..|attempts| - 1]);
      assert es[..|es|] == es;
      DecidedIsLegal(AccountAfter(es), a.command);
      var after := AfterAttempts(attempts, true);
      if after != es { assert after[..|es|] == es; }
    }
  }

  lemma FirstAttempts(a: Attempt, b: Attempt, c: Attempt, gated: bool)
    ensures AfterAttempts([a], gated) == Attempted([], a, gated)
    ensures AfterAttempts([a, b], gated) == Attempted(AfterAttempts([a], gated), b, gated)
    ensures AfterAttempts([a, b, c], gated) == Attempted(AfterAttempts([a, b], gated), c, gated)
  {
    assert [a, b, c][..2] == [a, b] && [a, b][..1] == [a] && [a][..0] == [];
  }

  /** Without the version gate an update is lost: two withdrawals of the whole
      balance both go through. */
  lemma UngatedLosesUpdates()
    ensures var taken := Attempt(1, Withdraw(10.0, None));
            var es := AfterAttempts([Attempt(0, Open("c", 10.0)), taken, taken], false);
            |es| == 3 && AccountAfter(es).balance == 0.0 && TotalFlow(es) == -10.0
  {
    var opening, taken := Attempt(0, Open("c", 10.0)), Attempt(1, Withdraw(10.0, None));
    var e0, e1 := AccountOpened("c", 10.0), AccountWithdrawn(10.0, 0.0, None);
    FirstAttempts(opening, taken, taken, false);
    hide AfterAttempts;
    assert [e0][..0] == [] && [e0][..1] == [e0] && [e0, e1][..1] == [e0] && [e0, e1, e1][..2] == [e0, e1];
    assert AccountAfter([e0]) == AccountState("c", 10.0, false);
    assert AfterAttempts([opening], false) == [e0];
    assert AfterAttempts([opening, taken], false) == [e0, e1];
    assert [e0, e1] + [e1] == [e0, e1, e1];
    assert Attempted([e0, e1], taken, false) == [e0, e1] + [e1];
    assert TotalFlow([e0]) == 10.0;
    assert TotalFlow([e0, e1]) == 0.0;
  }

  /** The aggregate's open command does not look at the balance: opening after a
      deposit passes the gate and overwrites the money. */
  lemma {:induction false} OpenOverwritesDeposit()
    ensures var es := AfterAttempts([Attempt(0, Deposit(5.0, None)), Attempt(1, Open("c", 10.0))], true);
            Ledger(es) && |es| == 2 && AccountAfter(es).balance == 10.0 && TotalFlow(es) == 15.0
  {
    var paid, opening := Attempt(0, Deposit(5.0, None)), Attempt(1, Open("c", 10.0));
    var e0, e1 := AccountDeposited(5.0, 5.0, None), AccountOpened("c", 10.0);
    WritersKeepLedger([paid, opening]);
    FirstAttempts(paid, opening, opening, true);
    hide AfterAttempts;
    assert [e0][..0] == [] && [e0][..1] == [e0] && [e0, e1][..1] == [e0];
    assert AccountAfter([e0]) == AccountState("", 5.0, false);
    assert AfterAttempts([paid], true) == [e0];
    assert AfterAttempts([paid, opening], true) == [e0, e1];
  }
}
