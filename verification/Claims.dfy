/** Insurance claims: the claim aggregate, its concurrent writers and the
    settlement projection (examples/insurance-api/src/domain/claim.aggregate.ts,
    examples/insurance-api/src/projections/claim-settlement-projection.ts). */
module Claims {
  import opened Wrappers
  import opened Aggregates

  datatype ClaimEvent =
    | ClaimSubmitted(policyId: string, requestedAmount: real)
    | ClaimAssigned(adjusterId: string)
    | ClaimApproved(approvedAmount: real)
    | ClaimDenied(reason: string)
    | ClaimPaid(amount: real)

  datatype Status = Submitted | UnderReview | Approved | Denied | Paid

  /** An empty policy id counts as not submitted. */
  datatype ClaimState = ClaimState(policyId: string, requestedAmount: real, approvedAmount: Option<real>, status: Status)

  const NEW_CLAIM := ClaimState("", 0.0, None, Submitted)

  function Handle(s: ClaimState, e: ClaimEvent): ClaimState
  {
    match e
    case ClaimSubmitted(policyId, requestedAmount) => s.(policyId := policyId, requestedAmount := requestedAmount, status := Submitted)
    case ClaimAssigned(_) => s.(status := UnderReview)
    case ClaimApproved(amount) => s.(status := Approved, approvedAmount := Some(amount))
    case ClaimDenied(_) => s.(status := Denied)
    case ClaimPaid(_) => s.(status := Paid)
  }

  const HANDLERS: Handlers<ClaimState, ClaimEvent> := (s, e) => Some(Handle(s, e))

  /** Commands; inFuture is the outcome of comparing the incident date with the clock. */
  datatype Command =
    | Submit(policyId: string, requestedAmount: real, inFuture: bool)
    | AssignAdjuster(adjusterId: string)
    | Approve(approvedAmount: real)
    | Deny(reason: string)
    | MarkPaid

  datatype CommandError = AlreadySubmitted | AmountNotPositive | IncidentInFuture | WrongStatus | ExceedsRequest | NoApprovedAmount

  /** The event a command raises in a state, or the error it throws. */
  function Decide(s: ClaimState, c: Command): Result<ClaimEvent, CommandError>
  {
    match c
    case Submit(policyId, requestedAmount, inFuture) =>
      if s.policyId != "" then Err(AlreadySubmitted)
      else if requestedAmount <= 0.0 then Err(AmountNotPositive)
      else if inFuture then Err(IncidentInFuture)
      else Ok(ClaimSubmitted(policyId, requestedAmount))
    case AssignAdjuster(adjusterId) => if s.status != Submitted then Err(WrongStatus) else Ok(ClaimAssigned(adjusterId))
    case Approve(amount) =>
      if s.status != UnderReview then Err(WrongStatus)
      else if amount <= 0.0 then Err(AmountNotPositive)
      else if amount > s.requestedAmount then Err(ExceedsRequest)
      else Ok(ClaimApproved(amount))
    case Deny(reason) => if s.status != UnderReview then Err(WrongStatus) else Ok(ClaimDenied(reason))
    case MarkPaid =>
      if s.status != Approved then Err(WrongStatus)
      else if s.approvedAmount.None? then Err(NoApprovedAmount)
      else Ok(ClaimPaid(s.approvedAmount.value))
  }

  /** The claim after its events. */
  function ClaimAfter(es: seq<ClaimEvent>): ClaimState
  {
    if es == [] then NEW_CLAIM else Handle(ClaimAfter(es[..|es| - 1]), es[|es| - 1])
  }

  lemma {:induction false} ReplayIsClaimAfter(es: seq<ClaimEvent>)
    ensures Replay(HANDLERS, NEW_CLAIM, es) == Some(ClaimAfter(es))
  {
    if es != [] { ReplayIsClaimAfter(es[..|es| - 1]); }
  }

  class ClaimAggregate {
    const root: AggregateRoot<ClaimState, ClaimEvent>

    constructor (id: string)
      ensures fresh(root) && root.handlers == HANDLERS && root.id == id
      ensures root.version == 0 && root.state == NEW_CLAIM && root.pending == []
    {
      root := new AggregateRoot(id, NEW_CLAIM, HANDLERS);
    }

    /** A raised event changes the state and is pending; an error changes nothing. */
    twostate predicate Decided(c: Command, new r: Result<ClaimEvent, CommandError>)
      reads root
    {
      r == Decide(old(root.state), c) && root.version == old(root.version) &&
      root.state == (if r.Ok? then Handle(old(root.state), r.value) else old(root.state)) &&
      root.pending == old(root.pending) + if r.Ok? then [r.value] else []
    }

    method Raise(e: ClaimEvent)
      requires root.handlers == HANDLERS
      modifies root
      ensures root.state == Handle(old(root.state), e) && root.pending == old(root.pending) + [e]
      ensures root.version == old(root.version)
    {
      var n := root.Raise([e]);
      assert [e][..1] == [e] && [e][..0] == [];
    }

    method Submit(policyId: string, requestedAmount: real, inFuture: bool) returns (r: Result<ClaimEvent, CommandError>)
      requires root.handlers == HANDLERS
      modifies root
      ensures Decided(Command.Submit(policyId, requestedAmount, inFuture), r)
    {
      if root.state.policyId != "" { return Err(AlreadySubmitted); }
      if requestedAmount <= 0.0 { return Err(AmountNotPositive); }
      if inFuture { return Err(IncidentInFuture); }
      var e := ClaimSubmitted(policyId, requestedAmount);
      Raise(e);
      return Ok(e);
    }

    method Approve(approvedAmount: real) returns (r: Result<ClaimEvent, CommandError>)
      requires root.handlers == HANDLERS
      modifies root
      ensures Decided(Command.Approve(approvedAmount), r)
    {
      if root.state.status != UnderReview { return Err(WrongStatus); }
      if approvedAmount <= 0.0 { return Err(AmountNotPositive); }
      if approvedAmount > root.state.requestedAmount { return Err(ExceedsRequest); }
      var e := ClaimApproved(approvedAmount);
      Raise(e);
      return Ok(e);
    }

    method MarkPaid() returns (r: Result<ClaimEvent, CommandError>)
      requires root.handlers == HANDLERS
      modifies root
      ensures Decided(Command.MarkPaid, r)
    {
      if root.state.status != Approved { return Err(WrongStatus); }
      if root.state.approvedAmount.None? { return Err(NoApprovedAmount); }
      var e := ClaimPaid(root.state.approvedAmount.value);
      Raise(e);
      return Ok(e);
    }
  }

  // ---------------------------------------------------------------------------
  // Writers and projectors
  // ---------------------------------------------------------------------------

  /** One transaction on the claim's stream by someone who has seen its first
      events: the route that starts the stream, a command, or the settlement
      projection handling an approval, for the first time or again. */
  datatype Attempt =
    | StartStream(policyId: string, requestedAmount: real)
    | Execute(seen: nat, command: Command)
    | Settle(seen: nat)

  /** What the settlement handler appends. */
  function Settlement(s: ClaimState): Option<ClaimEvent>
  {
    if s.status != Approved then None
    else
      var paid := Decide(s, MarkPaid);
      if paid.Ok? then Some(paid.value) else None
  }

  /** The event an attempt appends if its version gate passes; None is no append. */
  function Appends(es: seq<ClaimEvent>, a: Attempt): Option<ClaimEvent>
  {
    match a
    case StartStream(policyId, amount) => if es == [] then Some(ClaimSubmitted(policyId, amount)) else None
    case Execute(seen, command) =>
      if seen != |es| then None
      else
        var decision := Decide(ClaimAfter(es[..seen]), command);
        if decision.Ok? then Some(decision.value) else None
    case Settle(seen) => if seen != |es| then None else Settlement(ClaimAfter(es[..seen]))
  }

  function After(attempts: seq<Attempt>): seq<ClaimEvent>
  {
    if attempts == [] then []
    else
      var es := After(attempts[..|attempts| - 1]);
      var e := Appends(es, attempts[|attempts| - 1]);
      if e.None? then es else es + [e.value]
  }

  /** The event may follow a claim in this state. */
  predicate Legal(s: ClaimState, e: ClaimEvent)
  {
    match e
    case ClaimSubmitted(_, _) => s.policyId == ""
    case ClaimAssigned(_) => s.status == Submitted
    case ClaimApproved(amount) => s.status == UnderReview && 0.0 < amount <= s.requestedAmount
    case ClaimDenied(_) => s.status == UnderReview
    case ClaimPaid(amount) => s.status == Approved && s.approvedAmount == Some(amount)
  }

  ghost predicate Lawful(es: seq<ClaimEvent>)
  {
    es == [] || (Lawful(es[..|es| - 1]) && Legal(ClaimAfter(es[..|es| - 1]), es[|es| - 1]))
  }

  lemma {:induction false} AttemptsLawful(attempts: seq<Attempt>)
    ensures Lawful(After(attempts))
  {
    if attempts != [] {
      var es := After(attempts[..|attempts| - 1]);
      AttemptsLawful(attempts[..|attempts| - 1]);
      assert es[..|es|] == es;
      var e := Appends(es, attempts[|attempts| - 1]);
      if e.Some? { assert (es + [e.value])[..|es|] == es; }
    }
  }

  function Payments(es: seq<ClaimEvent>): nat
  {
    if es == [] then 0 else Payments(es[..|es| - 1]) + if es[|es| - 1].ClaimPaid? then 1 else 0
  }

  function Submissions(es: seq<ClaimEvent>): nat
  {
    if es == [] then 0 else Submissions(es[..|es| - 1]) + if es[|es| - 1].ClaimSubmitted? then 1 else 0
  }

  predicate NamesPolicy(es: seq<ClaimEvent>)
  {
    forall i | 0 <= i < |es| && es[i].ClaimSubmitted? :: es[i].policyId != ""
  }

  /** An approved claim has an approved amount within what was requested; payments
      never outnumber submissions, and are one behind while no payment is made. */
  lemma {:induction false} PaidPerSubmission(es: seq<ClaimEvent>)
    requires Lawful(es)
    ensures var s := ClaimAfter(es);
            (s.status == Approved ==> s.approvedAmount.Some? && 0.0 < s.approvedAmount.value <= s.requestedAmount) &&
            Payments(es) <= Submissions(es) &&
            (Submissions(es) == 0 ==> s.requestedAmount == 0.0 && s.status != Approved && s.status != Paid) &&
            (s.status != Paid && Submissions(es) > 0 ==> Payments(es) < Submissions(es))
  {
    if es != [] { PaidPerSubmission(es[..|es| - 1]); }
  }

  /** A claim that names its policy is submitted once. */
  lemma {:induction false} SubmittedOnce(es: seq<ClaimEvent>)
    requires Lawful(es) && NamesPolicy(es)
    ensures Submissions(es) <= 1 && (Submissions(es) == 1 <==> ClaimAfter(es).policyId != "")
  {
    if es != [] {
      var init := es[..|es| - 1];
      assert forall i | 0 <= i < |init| :: init[i] == es[i];
      SubmittedOnce(init);
    }
  }

  /** Paid once: under any interleaving of writers and projectors, with handlers
      run again from any checkpoint, a claim whose submission names a policy is
      paid at most once. */
  lemma PaidOnce(attempts: seq<Attempt>)
    requires NamesPolicy(After(attempts))
    ensures Payments(After(attempts)) <= 1
  {
    AttemptsLawful(attempts);
    PaidPerSubmission(After(attempts));
    SubmittedOnce(After(attempts));
  }

  /** Every payment is of the approved amount, which never exceeds the requested one. */
  lemma PaidAsApproved(attempts: seq<Attempt>, k: nat)
    requires k < |After(attempts)| && After(attempts)[k].ClaimPaid?
    ensures var s := ClaimAfter(After(attempts)[..k]);
            s.status == Approved && s.approvedAmount == Some(After(attempts)[k].amount) && 0.0 < After(attempts)[k].amount <= s.requestedAmount
  {
    AttemptsLawful(attempts);
    LawfulPrefix(After(attempts), k);
    PaidPerSubmission(After(attempts)[..k]);
  }

  lemma {:induction false} LawfulPrefix(es: seq<ClaimEvent>, k: nat)
    requires Lawful(es) && k <= |es|
    ensures Lawful(es[..k])
    ensures k < |es| ==> Legal(ClaimAfter(es[..k]), es[k])
  {
    if k < |es| {
      var init := es[..|es| - 1];
      LawfulPrefix(init, k);
      assert init[..k] == es[..k];
    } else {
      assert es[..k] == es;
    }
  }

  /** A claim that starts with its submission and names its policy is closed by its
      denial or its payment: nothing follows. */
  lemma {:induction false} ClosedForGood(es: seq<ClaimEvent>, k: nat)
    requires Lawful(es) && NamesPolicy(es) && k < |es| && (es[k].ClaimDenied? || es[k].ClaimPaid?) && es[0].ClaimSubmitted?
    ensures k == |es| - 1 && ClaimAfter(es).status == if es[k].ClaimPaid? then Paid else Denied
  {
    if k < |es| - 1 {
      var init := es[..|es| - 1];
      assert forall i | 0 <= i < |init| :: init[i] == es[i];
      ClosedForGood(init, k);
      SubmittedFirst(init);
      assert false;
    }
  }

  lemma {:induction false} SubmittedFirst(es: seq<ClaimEvent>)
    requires NamesPolicy(es) && es != [] && es[0].ClaimSubmitted?
    ensures ClaimAfter(es).policyId != ""
  {
    if |es| > 1 {
      var init := es[..|es| - 1];
      assert forall i | 0 <= i < |init| :: init[i] == es[i];
      SubmittedFirst(init);
    }
  }

  /** Without a submission at its start a denial does not close it. */
  lemma DeniedThenSubmitted(policyId: string, amount: real)
    requires amount > 0.0
    ensures var es := [ClaimAssigned("a"), ClaimDenied("no"), ClaimSubmitted(policyId, amount)];
            Lawful(es) && After([Execute(0, AssignAdjuster("a")), Execute(1, Deny("no")), Execute(2, Submit(policyId, amount, false))]) == es
  {
    var a, b, d := Execute(0, AssignAdjuster("a")), Execute(1, Deny("no")), Execute(2, Submit(policyId, amount, false));
    var x, y, z := ClaimAssigned("a"), ClaimDenied("no"), ClaimSubmitted(policyId, amount);
    var s := NEW_CLAIM;
    assert Decide(s, AssignAdjuster("a")) == Ok(x) && Handle(s, x) == s.(status := UnderReview);
    assert Decide(s.(status := UnderReview), Deny("no")) == Ok(y) && Handle(s.(status := UnderReview), y) == s.(status := Denied);
    assert Decide(s.(status := Denied), Submit(policyId, amount, false)) == Ok(z);
    NothingYet();
    hide *;
    AttemptsLawful([a, b, d]);
    assert |[x]| == 1 && |[x, y]| == 2;
    CommandGoes([], [], s, AssignAdjuster("a"));
    assert [] + [a] == [a] && [] + [x] == [x];
    CommandGoes([a], [x], s.(status := UnderReview), Deny("no"));
    assert [a] + [b] == [a, b] && [x] + [y] == [x, y];
    CommandGoes([a, b], [x, y], s.(status := Denied), Submit(policyId, amount, false));
    assert [a, b] + [d] == [a, b, d] && [x, y] + [z] == [x, y, z];
  }

  lemma NothingYet()
    ensures After([]) == [] && ClaimAfter([]) == NEW_CLAIM
  {
  }

  /** A command that is decided on the whole stream. */
  lemma CommandGoes(attempts: seq<Attempt>, es: seq<ClaimEvent>, s: ClaimState, command: Command)
    requires After(attempts) == es && ClaimAfter(es) == s && Decide(s, command).Ok?
    ensures var e := Decide(s, command).value; After(attempts + [Execute(|es|, command)]) == es + [e] && ClaimAfter(es + [e]) == Handle(s, e)
  {
    UpToDate(es, command);
    Appended(attempts, Execute(|es|, command), Decide(s, command).value);
  }

  /** A submission goes through as a command exactly for a claim without a policy, over a
      positive amount and with an incident that is not in the future; starting the stream
      goes past those tests, and needs the stream to be empty. */
  lemma SubmissionsAccepted(es: seq<ClaimEvent>, policyId: string, amount: real, inFuture: bool)
    ensures Appends(es, Execute(|es|, Submit(policyId, amount, inFuture))) ==
              if ClaimAfter(es).policyId == "" && amount > 0.0 && !inFuture then Some(ClaimSubmitted(policyId, amount)) else None
    ensures Appends(es, StartStream(policyId, amount)) == if |es| == 0 then Some(ClaimSubmitted(policyId, amount)) else None
  {
    UpToDate(es, Submit(policyId, amount, inFuture));
  }

  /** The amounts on the claim are those of its last submission and approval, and a
      payment leaves them. */
  lemma {:induction false} AmountsStand(es: seq<ClaimEvent>, k: nat)
    requires k < |es|
    ensures es[k].ClaimSubmitted? && (forall j | k < j < |es| :: !es[j].ClaimSubmitted?) ==>
              ClaimAfter(es).policyId == es[k].policyId && ClaimAfter(es).requestedAmount == es[k].requestedAmount
    ensures es[k].ClaimApproved? && (forall j | k < j < |es| :: !es[j].ClaimApproved?) ==>
              ClaimAfter(es).approvedAmount == Some(es[k].approvedAmount)
  {
    if k < |es| - 1 { AmountsStand(es[..|es| - 1], k); }
  }

  /** The whole way: started, assigned, approved within the request and settled, each
      by someone who has seen all before, a claim has exactly one payment, of the
      approved amount. */
  lemma PaysWhatIsApproved(policyId: string, requested: real, adjusterId: string, approved: real)
    requires 0.0 < approved <= requested
    ensures After([StartStream(policyId, requested), Execute(1, AssignAdjuster(adjusterId)), Execute(2, Approve(approved)), Settle(3)]) ==
              [ClaimSubmitted(policyId, requested), ClaimAssigned(adjusterId), ClaimApproved(approved), ClaimPaid(approved)]
  {
    var a, b, d, e := StartStream(policyId, requested), Execute(1, AssignAdjuster(adjusterId)), Execute(2, Approve(approved)), Settle(3);
    var x, y, z, paid := ClaimSubmitted(policyId, requested), ClaimAssigned(adjusterId), ClaimApproved(approved), ClaimPaid(approved);
    var s := ClaimState(policyId, requested, None, UnderReview);
    assert Decide(s, Approve(approved)) == Ok(z);
    assert Handle(s, z) == ClaimState(policyId, requested, Some(approved), Approved);
    assert Settlement(Handle(s, z)) == Some(paid);
    hide *;
    InReview(policyId, requested, adjusterId);
    CommandGoes([a, b], [x, y], s, Approve(approved));
    assert |[x, y]| == 2;
    assert [a, b] + [d] == [a, b, d] && [x, y] + [z] == [x, y, z];
    UpToDate([x, y, z], MarkPaid);
    assert |[x, y, z]| == 3;
    Appended([a, b, d], e, paid);
    assert [a, b, d] + [e] == [a, b, d, e] && [x, y, z] + [paid] == [x, y, z, paid];
  }

  lemma InReview(policyId: string, requested: real, adjusterId: string)
    ensures var es := [ClaimSubmitted(policyId, requested), ClaimAssigned(adjusterId)];
            After([StartStream(policyId, requested), Execute(1, AssignAdjuster(adjusterId))]) == es &&
            ClaimAfter(es) == ClaimState(policyId, requested, None, UnderReview)
  {
    var a, b := StartStream(policyId, requested), Execute(1, AssignAdjuster(adjusterId));
    var x, y := ClaimSubmitted(policyId, requested), ClaimAssigned(adjusterId);
    var s := ClaimState(policyId, requested, None, Submitted);
    NothingYet();
    assert Appends([], a) == Some(x) && Handle(NEW_CLAIM, x) == s;
    assert Decide(s, AssignAdjuster(adjusterId)) == Ok(y) && Handle(s, y) == s.(status := UnderReview);
    hide *;
    Appended([], a, x);
    assert [] + [a] == [a] && [] + [x] == [x];
    assert |[x]| == 1;
    CommandGoes([a], [x], s, AssignAdjuster(adjusterId));
    assert [a] + [b] == [a, b] && [x] + [y] == [x, y];
  }

  // ---------------------------------------------------------------------------
  // The exact condition
  // ---------------------------------------------------------------------------

  /** Every submission of the run uses this policy id. */
  predicate AllUse(attempts: seq<Attempt>, policyId: string)
  {
    forall i | 0 <= i < |attempts| ::
      (attempts[i].StartStream? ==> attempts[i].policyId == policyId) &&
      (attempts[i].Execute? && attempts[i].command.Submit? ==> attempts[i].command.policyId == policyId)
  }

  lemma {:induction false} UsedPolicy(attempts: seq<Attempt>, policyId: string)
    requires AllUse(attempts, policyId) && policyId != ""
    ensures NamesPolicy(After(attempts))
  {
    if attempts != [] {
      UsedPolicy(attempts[..|attempts| - 1], policyId);
    }
  }

  /** One submission taken through to its payment. */
  function PaidRound(n: nat, amount: real): seq<Attempt>
  {
    [Execute(n, Submit("", amount, false)), Execute(n + 1, AssignAdjuster("a")), Execute(n + 2, Approve(amount)), Settle(n + 3)]
  }

  /** An attempt whose event goes through. */
  lemma Appended(attempts: seq<Attempt>, a: Attempt, e: ClaimEvent)
    requires Appends(After(attempts), a) == Some(e)
    ensures After(attempts + [a]) == After(attempts) + [e]
    ensures ClaimAfter(After(attempts + [a])) == Handle(ClaimAfter(After(attempts)), e)
    ensures Payments(After(attempts + [a])) == Payments(After(attempts)) + if e.ClaimPaid? then 1 else 0
  {
    var es := After(attempts);
    assert (attempts + [a])[..|attempts|] == attempts;
    assert (es + [e])[..|es|] == es;
  }

  /** A command, or a settlement, of someone who has seen the whole stream. */
  lemma UpToDate(es: seq<ClaimEvent>, command: Command)
    ensures Appends(es, Execute(|es|, command)) == if Decide(ClaimAfter(es), command).Ok? then Some(Decide(ClaimAfter(es), command).value) else None
    ensures Appends(es, Settle(|es|)) == Settlement(ClaimAfter(es))
  {
    assert es[..|es|] == es;
  }

  lemma SubmittedAgain(attempts: seq<Attempt>, n: nat, amount: real)
    requires n == |After(attempts)| && ClaimAfter(After(attempts)).policyId == "" && amount > 0.0
    ensures var after := attempts + [Execute(n, Submit("", amount, false))] + [Execute(n + 1, AssignAdjuster("a"))];
            |After(after)| == n + 2 && Payments(After(after)) == Payments(After(attempts)) &&
            ClaimAfter(After(after)).policyId == "" && ClaimAfter(After(after)).status == UnderReview && ClaimAfter(After(after)).requestedAmount == amount
  {
    hide After, ClaimAfter, Payments, Appends;
    UpToDate(After(attempts), Submit("", amount, false));
    Appended(attempts, Execute(n, Submit("", amount, false)), ClaimSubmitted("", amount));
    var submitted := attempts + [Execute(n, Submit("", amount, false))];
    UpToDate(After(submitted), AssignAdjuster("a"));
    Appended(submitted, Execute(n + 1, AssignAdjuster("a")), ClaimAssigned("a"));
  }

  lemma PaidAgain(attempts: seq<Attempt>, n: nat, amount: real)
    requires n == |After(attempts)| && amount > 0.0
    requires var s := ClaimAfter(After(attempts)); s.policyId == "" && s.status == UnderReview && s.requestedAmount == amount
    ensures var after := attempts + [Execute(n, Approve(amount))] + [Settle(n + 1)];
            |After(after)| == n + 2 && Payments(After(after)) == Payments(After(attempts)) + 1 && ClaimAfter(After(after)).policyId == ""
  {
    hide After, ClaimAfter, Payments, Appends;
    UpToDate(After(attempts), Approve(amount));
    Appended(attempts, Execute(n, Approve(amount)), ClaimApproved(amount));
    var approved := attempts + [Execute(n, Approve(amount))];
    UpToDate(After(approved), MarkPaid);
    Appended(approved, Settle(n + 1), ClaimPaid(amount));
  }

  lemma OneRound(attempts: seq<Attempt>, amount: real)
    requires ClaimAfter(After(attempts)).policyId == "" && amount > 0.0
    ensures var after := attempts + PaidRound(|After(attempts)|, amount);
            ClaimAfter(After(after)).policyId == "" && Payments(After(after)) == Payments(After(attempts)) + 1 && |After(after)| == |After(attempts)| + 4
  {
    hide After, ClaimAfter, Payments;
    var n := |After(attempts)|;
    SubmittedAgain(attempts, n, amount);
    var inReview := attempts + [Execute(n, Submit("", amount, false))] + [Execute(n + 1, AssignAdjuster("a"))];
    PaidAgain(inReview, n + 2, amount);
    assert inReview + [Execute(n + 2, Approve(amount))] + [Settle(n + 3)] == attempts + PaidRound(n, amount);
  }

  /** A claim submitted with an empty policy id can be submitted, approved and paid
      a second time. */
  lemma BlankPolicyPaysTwice(amount: real)
    requires amount > 0.0
    ensures AllUse(PaidRound(0, amount) + PaidRound(4, amount), "") && Payments(After(PaidRound(0, amount) + PaidRound(4, amount))) == 2
  {
    assert After([]) == [] && Payments([]) == 0 && ClaimAfter([]) == NEW_CLAIM;
    hide After, Payments, ClaimAfter, PaidRound, AllUse;
    OneRound([], amount);
    assert [] + PaidRound(0, amount) == PaidRound(0, amount);
    OneRound(PaidRound(0, amount), amount);
    RoundsUse(0, 4, amount);
  }

  lemma RoundsUse(m: nat, n: nat, amount: real)
    ensures AllUse(PaidRound(m, amount) + PaidRound(n, amount), "")
  {
  }

  /** Exactly when a claim can be paid more than once: when its policy id is empty,
      which the submit command does not check. */
  lemma PaidOnceIffPolicyNamed(policyId: string)
    ensures (forall attempts | AllUse(attempts, policyId) :: Payments(After(attempts)) <= 1) <==> policyId != ""
  {
    if policyId != "" {
      forall attempts | AllUse(attempts, policyId) ensures Payments(After(attempts)) <= 1 {
        UsedPolicy(attempts, policyId);
        PaidOnce(attempts);
      }
    } else {
      BlankPolicyPaysTwice(1.0);
    }
  }

  // ---------------------------------------------------------------------------
  // The settlement handler
  // ---------------------------------------------------------------------------

  /** An open transaction on one claim's stream; the stream may have grown since
      the handler read it. */
  class ClaimTx {
    var events: seq<ClaimEvent>

    constructor (events: seq<ClaimEvent>)
      ensures this.events == events
    {
      this.events := events;
    }

    /** Other transactions commit. Callers may rely on no more than the contract. */
    method Interference()
      modifies this
      ensures old(events) <= events
    {
    }

    /** The handler for an approval: load the claim, skip it unless it is approved,
        pay it and append through the version gate. A stream that grew in between
        is an error. */
    method HandleApproved(claimId: string) returns (ok: bool, ghost others: seq<ClaimEvent>)
      modifies this
      ensures old(events) <= others
      ensures ok ==> var e := Appends(others, Settle(|old(events)|)); events == if e.Some? then others + [e.value] else others
      ensures !ok ==> events == others && |others| > |old(events)|
    {
      var history := seq(|events|, i requires 0 <= i < |events| reads this => Recorded(events[i], i + 1));
      assert Payloads(history) == events;
      var claim := new ClaimAggregate(claimId);
      ReplayIsClaimAfter(events);
      var loaded := claim.root.LoadFromHistory(history);
      others := events;
      assert events[..|events|] == events;
      if claim.root.state.status != Approved { return true, events; }
      var paid := claim.MarkPaid();
      var pending := claim.root.PullPendingEvents();
      if |pending| == 0 { return true, events; }
      Interference();
      others := events;
      if claim.root.version != |events| { return false, events; }
      events := events + pending;
      return true, others;
    }
  }
}
