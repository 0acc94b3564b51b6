/** What the gate promises over whole runs: any calls, by anyone, in any order, at non-decreasing ledger times. */
module GateTheorems {
  import opened Primitives
  import opened Digest
  import opened GateSpec
  import opened GateInvariants

  // ------------------------------------------------------- what never comes back

  predicate SameTerms(p: Payable, q: Payable) {
    p.proofHash == q.proofHash && p.recipient == q.recipient && p.amount == q.amount && p.policyHash == q.policyHash
      && p.expiry == q.expiry
  }

  /** A payable keeps its terms for ever and leaves READY at most once. */
  predicate Matures(p: Payable, q: Payable) {
    SameTerms(p, q) && (p.status.Ready? || p.status == q.status)
  }

  ghost predicate PayablesAdvance(before: map<Bytes32, Payable>, after: map<Bytes32, Payable>) {
    forall id :: id in before ==> id in after && Matures(before[id], after[id])
  }

  predicate SameFixedParts(c: Config, d: Config) {
    c.payer == d.payer && c.asset == d.asset && c.networkId == d.networkId
  }

  ghost predicate HistoryAdvances(h: History, k: History) {
    h.log <= k.log && h.payments <= k.payments && h.withdrawals <= k.withdrawals
  }

  /** What a registration was signed under is never rewritten. */
  ghost predicate GrantsStand(g: Gate, g': Gate) {
    forall id :: id in g.payables && id in g.history.grants ==>
      id in g'.history.grants && g'.history.grants[id] == g.history.grants[id]
  }

  ghost predicate Advances(g: Gate, g': Gate) {
    g.self == g'.self && g.clock <= g'.clock
    && (g.config.Some? ==> g'.config.Some? && SameFixedParts(g.config.value, g'.config.value))
    && PayablesAdvance(g.payables, g'.payables)
    && GrantsStand(g, g')
    && HistoryAdvances(g.history, g'.history)
  }

  lemma PayablesAdvanceTransitively(a: map<Bytes32, Payable>, b: map<Bytes32, Payable>, c: map<Bytes32, Payable>)
    requires PayablesAdvance(a, b) && PayablesAdvance(b, c)
    ensures PayablesAdvance(a, c)
  {
    forall id | id in a ensures id in c && Matures(a[id], c[id]) {
      assert Matures(a[id], b[id]) && Matures(b[id], c[id]);
    }
  }

  lemma AdvancesTransitively(a: Gate, b: Gate, c: Gate)
    requires Advances(a, b) && Advances(b, c)
    ensures Advances(a, c)
  {
    PayablesAdvanceTransitively(a.payables, b.payables, c.payables);
  }

  lemma CloseAdvances(g: Gate, e: Env, id: Bytes32, status: Status, event: Event)
    requires Sane(g) && id in g.payables && g.payables[id].status.Ready?
    ensures Advances(g, Close(g, e, id, status, event))
  {
    assert Matures(g.payables[id], g.payables[id].(status := status));
  }

  lemma {:induction false} ExpireBatchAdvances(g: Gate, e: Env, ids: seq<Bytes32>)
    requires Sane(g)
    ensures Advances(g, ExpireBatch(g, e, ids).0)
  {
    if ids != [] {
      var rest, id := ids[..|ids| - 1], ids[|ids| - 1];
      var before := ExpireBatch(g, e, rest).0;
      ExpireBatchAdvances(g, e, rest);
      if Lapsed(before, e.now, id) {
        CloseAdvances(before, e, id, Expired, PayableExpired(id, before.payables[id].expiry));
        AdvancesTransitively(g, before, ExpireReady(before, e, id));
      }
    }
  }

  lemma RegisterAdvances(crypto: Crypto, g: Gate, e: Env, id: Bytes32, p: Payable, signatures: seq<IssuerSignature>)
    requires p.status.Ready? && Register(crypto, g, e, id, p, signatures).Done?
    ensures Advances(g, Register(crypto, g, e, id, p, signatures).gate)
  {
  }

  lemma SettleAdvances(g: Gate, e: Env, id: Bytes32)
    requires Sane(g) && Settle(g, e, id).Done?
    ensures Advances(g, Settle(g, e, id).gate)
  {
    var p := g.payables[id];
    CloseAdvances(g, e, id, Settled, SettlementExecuted(id, p.recipient, p.amount, p.proofHash));
  }

  lemma InitializeAdvances(g: Gate, e: Env, c: Config, holdings: map<Address, nat>)
    requires Initialize(g, e, c, holdings).Done?
    ensures Advances(g, Initialize(g, e, c, holdings).gate)
  {
  }

  lemma WithdrawAdvances(g: Gate, e: Env, amount: i128)
    requires Withdraw(g, e, amount).Done?
    ensures Advances(g, Withdraw(g, e, amount).gate)
  {
  }

  lemma AttestAdvances(crypto: Crypto, g: Gate, e: Env, id: Bytes32, reason: Octets, phase: Phase, sequence: u64,
                       signatures: seq<IssuerSignature>)
    requires Attest(crypto, g, e, id, reason, phase, sequence, signatures).Done?
    ensures Advances(g, Attest(crypto, g, e, id, reason, phase, sequence, signatures).gate)
  {
  }

  lemma ConfigureAdvances(g: Gate, e: Env, s: Setting)
    requires Configure(g, e, s).Done?
    ensures Advances(g, Configure(g, e, s).gate)
  {
  }

  lemma ExpireAdvances(g: Gate, e: Env, id: Bytes32)
    requires Sane(g) && Expire(g, e, id).Done?
    ensures Advances(g, Expire(g, e, id).gate)
  {
    CloseAdvances(g, e, id, Expired, PayableExpired(id, g.payables[id].expiry));
  }

  lemma RevokeAdvances(crypto: Crypto, g: Gate, e: Env, id: Bytes32, reason: Octets, signatures: seq<IssuerSignature>)
    requires Sane(g) && Revoke(crypto, g, e, id, reason, signatures).Done?
    ensures Advances(g, Revoke(crypto, g, e, id, reason, signatures).gate)
  {
    CloseAdvances(g, e, id, Revoked, PayableRevoked(id, reason));
  }

  /** The call, with the gate's clock already at its time. */
  lemma EntryAdvances(crypto: Crypto, at: Gate, e: Env, call: Call)
    requires Sane(at) && Callable(call) && at.clock == e.now && Invoke(crypto, at, e, call).Done?
    ensures Advances(at, Invoke(crypto, at, e, call).gate)
  {
    assert at.(clock := e.now) == at;
    match call {
      case CallInitialize(config, holdings) => InitializeAdvances(at, e, config, holdings);
      case CallRegister(id, payable, signatures) => RegisterAdvances(crypto, at, e, id, payable, signatures);
      case CallSettle(id) => SettleAdvances(at, e, id);
      case CallExpire(id) => ExpireAdvances(at, e, id);
      case CallExpireBatch(ids) => ExpireBatchAdvances(at, e, ids);
      case CallRevoke(id, reason, signatures) => RevokeAdvances(crypto, at, e, id, reason, signatures);
      case CallWithdraw(amount) => WithdrawAdvances(at, e, amount);
      case CallAttest(id, reason, phase, sequence, signatures) =>
        AttestAdvances(crypto, at, e, id, reason, phase, sequence, signatures);
      case CallConfigure(setting) => ConfigureAdvances(at, e, setting);
    }
  }

  lemma InvokeAdvances(crypto: Crypto, g: Gate, g': Gate, e: Env, call: Call)
    requires Sane(g) && Callable(call) && g.clock <= e.now && Invoke(crypto, g, e, call) == Done(g')
    ensures Advances(g, g')
  {
    var at := g.(clock := e.now);
    assert Invoke(crypto, at, e, call) == Invoke(crypto, g, e, call);
    EntryAdvances(crypto, at, e, call);
    AdvancesTransitively(g, at, g');
  }

  // --------------------------------------------------------------------- runs

  ghost predicate Step(crypto: Crypto, g: Gate, g': Gate) {
    (exists e: Env, call: Call :: InvokeStep(crypto, g, g', e, call))
    || (exists balances: map<Address, nat> :: OutsideStep(g, g', balances))
  }

  ghost predicate InvokeStep(crypto: Crypto, g: Gate, g': Gate, e: Env, call: Call) {
    Sane(g) && Callable(call) && g.clock <= e.now && Invoke(crypto, g, e, call) == Done(g')
  }

  ghost predicate OutsideStep(g: Gate, g': Gate, balances: map<Address, nat>) {
    (if g.self in balances then balances[g.self] else 0) >= Balance(g, g.self) && g' == Outside(g, balances)
  }

  ghost predicate StepAt(crypto: Crypto, trace: seq<Gate>, i: nat)
    requires 0 < i < |trace|
  {
    Step(crypto, trace[i - 1], trace[i])
  }

  /** A run starts from the deployed contract, before `initialize`. */
  ghost predicate Run(crypto: Crypto, trace: seq<Gate>) {
    trace != [] && trace[0] == NewGate(trace[0].self)
    && forall i: nat :: 0 < i < |trace| ==> StepAt(crypto, trace, i)
  }

  lemma NewGateInv(crypto: Crypto, self: Address)
    ensures Inv(crypto, NewGate(self))
  {
  }

  lemma StepKeepsInv(crypto: Crypto, g: Gate, g': Gate)
    requires Inv(crypto, g) && Step(crypto, g, g')
    ensures Inv(crypto, g') && Advances(g, g')
  {
    if e, call :| InvokeStep(crypto, g, g', e, call) {
      InvokeKeepsInv(crypto, g, g', e, call);
      InvokeAdvances(crypto, g, g', e, call);
    } else {
      var balances :| OutsideStep(g, g', balances);
      OutsideKeepsInv(crypto, g, balances);
    }
  }

  lemma RunStepKeepsInv(crypto: Crypto, trace: seq<Gate>, i: nat)
    requires Run(crypto, trace) && 0 < i < |trace| && Inv(crypto, trace[i - 1])
    ensures Inv(crypto, trace[i]) && Advances(trace[i - 1], trace[i])
  {
    assert StepAt(crypto, trace, i);
    StepKeepsInv(crypto, trace[i - 1], trace[i]);
  }

  lemma {:induction false} RunKeepsInv(crypto: Crypto, trace: seq<Gate>, i: nat)
    requires Run(crypto, trace) && i < |trace|
    ensures Inv(crypto, trace[i])
  {
    if i == 0 {
      NewGateInv(crypto, trace[0].self);
    } else {
      RunKeepsInv(crypto, trace, i - 1);
      RunStepKeepsInv(crypto, trace, i);
    }
  }

  lemma {:induction false} RunAdvances(crypto: Crypto, trace: seq<Gate>, i: nat, j: nat)
    requires Run(crypto, trace) && i <= j < |trace|
    ensures Advances(trace[i], trace[j])
    decreases j
  {
    if i < j {
      RunAdvances(crypto, trace, i, j - 1);
      RunKeepsInv(crypto, trace, j - 1);
      RunStepKeepsInv(crypto, trace, j);
      AdvancesTransitively(trace[i], trace[j - 1], trace[j]);
    }
  }

  /** Some run ends here. */
  ghost predicate Reachable(crypto: Crypto, g: Gate) {
    exists trace: seq<Gate> :: Run(crypto, trace) && g == trace[|trace| - 1]
  }

  /** Some run passes through g and ends in g'. */
  ghost predicate Leads(crypto: Crypto, g: Gate, g': Gate) {
    exists trace: seq<Gate>, i: nat :: Run(crypto, trace) && i < |trace| && g == trace[i] && g' == trace[|trace| - 1]
  }

  lemma ReachableInv(crypto: Crypto, g: Gate)
    requires Reachable(crypto, g)
    ensures Inv(crypto, g) && Sane(g)
  {
    var trace: seq<Gate> :| Run(crypto, trace) && g == trace[|trace| - 1];
    RunKeepsInv(crypto, trace, |trace| - 1);
    InvIsSane(crypto, g);
  }

  /** Whatever happens in between: terms are kept, terminal statuses are permanent, history only grows. */
  lemma LaterStatesAdvance(crypto: Crypto, g: Gate, g': Gate)
    requires Leads(crypto, g, g')
    ensures Inv(crypto, g') && Sane(g') && Advances(g, g')
  {
    var trace: seq<Gate>, i: nat :| Run(crypto, trace) && i < |trace| && g == trace[i] && g' == trace[|trace| - 1];
    RunAdvances(crypto, trace, i, |trace| - 1);
    RunKeepsInv(crypto, trace, |trace| - 1);
    InvIsSane(crypto, g');
  }

  // ------------------------------------------------------------------ solvency

  /** In every reachable state: the running total is the sum over READY payables, releasing one never
      saturates, and in vault mode the balance covers everything promised, so the clamp is never hit. */
  lemma CommitmentsAreCovered(crypto: Crypto, g: Gate)
    requires Reachable(crypto, g)
    ensures g.committed == ReadySum(g.payables) >= 0
    ensures forall id :: id in g.payables && g.payables[id].status.Ready? ==>
              0 < g.payables[id].amount
                && Released(g.committed, g.payables[id].amount) == g.committed - g.payables[id].amount
    ensures g.config.Some? && IsVault(g, g.config.value) ==>
            Available(g, g.config.value) == Balance(g, g.self) - ReadySum(g.payables) >= 0
  {
    ReachableInv(crypto, g);
    assert Holds(Funds, crypto, g);
    SumBounds(g.payables, g.payables.Keys);
    forall id | id in g.payables && g.payables[id].status.Ready? ensures g.payables[id].amount <= g.committed {
      assert Owed(g.payables[id]) == g.payables[id].amount;
    }
  }

  /** A vault's registration never traps on the running total: the token's own range bounds it. */
  lemma VaultCommitNeverOverflows(crypto: Crypto, g: Gate, e: Env, c: Config, id: Bytes32, p: Payable)
    requires g.config == Some(c) && IsVault(g, c) && Balance(g, g.self) <= I128_MAX
    requires RegistrationRefusal(g, e, c, id, p).None?
    ensures g.committed + p.amount <= Balance(g, g.self) <= I128_MAX
  {
  }

  /** The gate's own balance is exactly what came in less what it paid and withdrew to others. */
  lemma MoneyIsConserved(crypto: Crypto, g: Gate)
    requires Reachable(crypto, g) && g.config.Some? && IsVault(g, g.config.value)
    ensures Balance(g, g.self)
            == g.history.received - PaidOut(g.history.payments, g.self) - WithdrawnOut(g.history.withdrawals, g.self)
  {
    ReachableInv(crypto, g);
    assert Holds(Funds, crypto, g);
  }

  // ---------------------------------------------------- money moves only as signed

  /** An id gets on the books only by an accepted registration of that very id. */
  lemma OnlyRegisteringAdds(crypto: Crypto, g: Gate, g': Gate, e: Env, call: Call, id: Bytes32)
    requires InvokeStep(crypto, g, g', e, call) && id !in g.payables && id in g'.payables
    ensures call.CallRegister? && call.id == id
    ensures Register(crypto, g.(clock := e.now), e, id, call.payable, call.signatures) == Done(g')
  {
    if call.CallExpireBatch? {
      SweepExpiresExactlyTheLapsed(g.(clock := e.now), e, call.ids);
    }
  }

  /** At step i + 1 of the run the id was registered, under the issuers and threshold configured at step i. */
  ghost predicate EnteredAt(trace: seq<Gate>, i: nat, id: Bytes32, grant: Grant) {
    i + 1 < |trace| && id !in trace[i].payables && id in trace[i + 1].payables && trace[i].config.Some?
    && var c := trace[i].config.value;
       !c.paused && grant == Grant(c.networkId, c.asset, c.issuers, c.threshold, grant.signatures)
  }

  lemma EnteringStep(crypto: Crypto, trace: seq<Gate>, i: nat, id: Bytes32)
    requires Run(crypto, trace) && i + 1 < |trace| && id !in trace[i].payables && id in trace[i + 1].payables
    ensures id in trace[i + 1].history.grants && EnteredAt(trace, i, id, trace[i + 1].history.grants[id])
  {
    var g, g' := trace[i], trace[i + 1];
    assert StepAt(crypto, trace, i + 1);
    if e, call :| InvokeStep(crypto, g, g', e, call) {
      OnlyRegisteringAdds(crypto, g, g', e, call, id);
      RegistrationNeedsTheIssuersInForce(crypto, g.(clock := e.now), e, id, call.payable, call.signatures);
    }
  }

  /** Every registered id entered once, at a definite step, and its grant still names the issuers and the
      threshold that were in force there. */
  lemma {:induction false} RegisteredUnderTheIssuersInForce(crypto: Crypto, trace: seq<Gate>, j: nat, id: Bytes32)
    requires Run(crypto, trace) && j < |trace| && id in trace[j].payables
    ensures id in trace[j].history.grants
    ensures exists i: nat :: i < j && EnteredAt(trace, i, id, trace[j].history.grants[id])
  {
    if id in trace[j - 1].payables {
      RegisteredUnderTheIssuersInForce(crypto, trace, j - 1, id);
      RunKeepsInv(crypto, trace, j - 1);
      RunStepKeepsInv(crypto, trace, j);
    } else {
      EnteringStep(crypto, trace, j - 1, id);
    }
  }

  /** A payment as it was authorized: at some step of the run its id was registered; its recipient, amount and
      all other terms, the gate, the asset and the network were in one digest that at least `threshold` different
      issuers signed, the issuers and the threshold being those configured at that step. */
  ghost predicate SignedPayment(crypto: Crypto, trace: seq<Gate>, g: Gate, payment: Payment) {
    g.config.Some? && payment.id in g.payables && payment.id in g.history.grants
    && g.payables[payment.id].status.Settled?
    && PaymentOf(payment, payment.id, g.payables[payment.id])
    && var grant := g.history.grants[payment.id];
       GrantHolds(crypto, g.self, g.config.value, payment.id, g.payables[payment.id], grant)
       && grant.threshold <= |Members(Issuers(grant.signatures))|
       && exists i: nat :: EnteredAt(trace, i, payment.id, grant)
  }

  lemma PaymentIsSigned(crypto: Crypto, trace: seq<Gate>, j: nat, k: nat)
    requires Run(crypto, trace) && j < |trace| && k < |trace[j].history.payments|
    ensures SignedPayment(crypto, trace, trace[j], trace[j].history.payments[k])
  {
    var g, payment := trace[j], trace[j].history.payments[k];
    RunKeepsInv(crypto, trace, j);
    assert Holds(Payments, crypto, g) && Holds(Grants, crypto, g);
    assert PaymentOf(g.history.payments[g.history.paid[payment.id]], payment.id, g.payables[payment.id]);
    assert GrantHolds(crypto, g.self, g.config.value, payment.id, g.payables[payment.id], g.history.grants[payment.id]);
    RegisteredUnderTheIssuersInForce(crypto, trace, j, payment.id);
    DistinctCount(Issuers(g.history.grants[payment.id].signatures));
  }

  /** In every state of every run each payment ever made was signed so, is the only one for its id, and every
      SETTLED payable has its payment. */
  lemma PaymentsAreSignedAndUnique(crypto: Crypto, trace: seq<Gate>, j: nat)
    requires Run(crypto, trace) && j < |trace|
    ensures var payments := trace[j].history.payments;
            (forall k :: 0 <= k < |payments| ==> SignedPayment(crypto, trace, trace[j], payments[k]))
            && forall i, k :: 0 <= i < k < |payments| ==> payments[i].id != payments[k].id
    ensures forall id :: id in trace[j].payables && trace[j].payables[id].status.Settled? ==>
              exists k :: 0 <= k < |trace[j].history.payments| && trace[j].history.payments[k].id == id
  {
    var g := trace[j];
    forall k | 0 <= k < |g.history.payments| ensures SignedPayment(crypto, trace, g, g.history.payments[k]) {
      PaymentIsSigned(crypto, trace, j, k);
    }
    RunKeepsInv(crypto, trace, j);
    assert Holds(Payments, crypto, g);
    forall id | id in g.payables && g.payables[id].status.Settled?
      ensures exists k :: 0 <= k < |g.history.payments| && g.history.payments[k].id == id
    {
      assert PaymentOf(g.history.payments[g.history.paid[id]], id, g.payables[id]);
    }
  }

  /** What a settlement does to the balances, in vault mode. */
  ghost predicate PaidBySettlement(g: Gate, g': Gate, e: Env, id: Bytes32) {
    id in g.payables && g.payables[id].status.Ready? && e.now <= g.payables[id].expiry
    && g.config.Some? && g.config.value.executor in e.auth
    && Balance(g', g.self) == Balance(g, g.self) - g.payables[id].amount
    && Balance(g', g.payables[id].recipient) == Balance(g, g.payables[id].recipient) + g.payables[id].amount
  }

  /** What a withdrawal does to them. */
  ghost predicate Returned(g: Gate, g': Gate, e: Env, amount: int) {
    g.config.Some? && g.config.value.admin in e.auth
    && 0 < amount <= Balance(g, g.self) - ReadySum(g.payables)
    && Balance(g', g.self) == Balance(g, g.self) - amount
    && Balance(g', g.config.value.treasury) == Balance(g, g.config.value.treasury) + amount
  }

  lemma SettleMoves(g: Gate, e: Env, id: Bytes32)
    requires Sane(g) && Settle(g, e, id).Done? && IsVault(g, g.config.value)
    ensures var g' := Settle(g, e, id).gate; Balance(g', g.self) == Balance(g, g.self) || PaidBySettlement(g, g', e, id)
  {
    var p := g.payables[id];
    MoveBalances(g.balances, g.self, p.recipient, p.amount, g.self);
    MoveBalances(g.balances, g.self, p.recipient, p.amount, p.recipient);
  }

  lemma WithdrawMoves(g: Gate, e: Env, amount: i128)
    requires Solvent(g) && Withdraw(g, e, amount).Done?
    ensures var g' := Withdraw(g, e, amount).gate;
            Balance(g', g.self) == Balance(g, g.self) || Returned(g, g', e, amount)
  {
    var c := g.config.value;
    MoveBalances(g.balances, g.self, c.treasury, amount, g.self);
    MoveBalances(g.balances, g.self, c.treasury, amount, c.treasury);
  }

  /** A vault's balance falls in two ways only: a settlement of a READY, unexpired payable, by exactly its
      amount and to its recipient, or a withdrawal, to the treasury in force, of money promised to nobody. */
  lemma MoneyLeavesInTwoWays(crypto: Crypto, g: Gate, g': Gate, e: Env, call: Call)
    requires Solvent(g) && InvokeStep(crypto, g, g', e, call)
    requires g.config.Some? && IsVault(g, g.config.value) && Balance(g', g.self) < Balance(g, g.self)
    ensures (call.CallSettle? && PaidBySettlement(g, g', e, call.id))
            || (call.CallWithdraw? && Returned(g, g', e, call.amount))
  {
    var at := g.(clock := e.now);
    match call {
      case CallSettle(id) => SettleMoves(at, e, id);
      case CallWithdraw(amount) => WithdrawMoves(at, e, amount);
      case CallExpireBatch(ids) => BatchMovesNothing(at, e, ids);
      case _ =>
    }
  }

  lemma {:induction false} BatchMovesNothing(g: Gate, e: Env, ids: seq<Bytes32>)
    requires Sane(g)
    ensures var g' := ExpireBatch(g, e, ids).0;
            g'.balances == g.balances && g'.config == g.config && g'.self == g.self && g'.window == g.window
            && g'.history.payments == g.history.payments && g'.history.withdrawals == g.history.withdrawals
  {
    if ids != [] {
      BatchMovesNothing(g, e, ids[..|ids| - 1]);
    }
  }

  /** The destination of withdrawals moves exactly when the setter is called with another address, and then the
      admin and the treasury being replaced both agreed; money is withdrawn only to the treasury of that moment. */
  lemma TreasuryMovesOnlyByConsent(crypto: Crypto, g: Gate, g': Gate, e: Env, call: Call)
    requires InvokeStep(crypto, g, g', e, call) && g.config.Some?
    ensures g'.config.Some?
    ensures g'.config.value.treasury != g.config.value.treasury <==>
              call.CallConfigure? && call.setting.Treasury? && call.setting.newTreasury != g.config.value.treasury
    ensures g'.config.value.treasury != g.config.value.treasury ==>
              g.config.value.admin in e.auth && g.config.value.treasury in e.auth
              && g'.config.value.treasury == call.setting.newTreasury
    ensures g'.history.withdrawals == g.history.withdrawals
            || exists amount: i128 :: amount > 0
                 && g'.history.withdrawals == g.history.withdrawals + [Withdrawal(g.config.value.treasury, amount)]
  {
    if call.CallExpireBatch? {
      BatchMovesNothing(g.(clock := e.now), e, call.ids);
    }
  }

  /** No call touches the configuration without the admin; a new admin and the treasury being replaced must consent
      too; payer, asset and network are fixed for good, and threshold and limits stay valid. */
  lemma ConfigurationMovesOnlyByConsent(crypto: Crypto, g: Gate, g': Gate, e: Env, call: Call)
    requires InvokeStep(crypto, g, g', e, call) && g.config.Some? && Configured(g)
    ensures g'.config.Some? && SameFixedParts(g.config.value, g'.config.value) && Configured(g')
    ensures g'.config != g.config ==> g.config.value.admin in e.auth
    ensures g'.config.value.admin != g.config.value.admin ==> g'.config.value.admin in e.auth
    ensures g'.config.value.treasury != g.config.value.treasury ==> g.config.value.treasury in e.auth
  {
    if call.CallExpireBatch? {
      BatchMovesNothing(g.(clock := e.now), e, call.ids);
    }
  }

  /** Revoking takes the issuers in force, each signing this id, the proof hash registered under it and the very
      reason that is logged. */
  lemma RevocationNeedsTheReasonSigned(crypto: Crypto, g: Gate, e: Env, id: Bytes32, reason: Octets,
                                       signatures: seq<IssuerSignature>)
    requires Sane(g) && Revoke(crypto, g, e, id, reason, signatures).Done?
    ensures g.config.Some? && id in g.payables && g.payables[id].status.Ready? && AddressBytes(g.self).Some?
    ensures var c, after := g.config.value, Revoke(crypto, g, e, id, reason, signatures).gate;
            Authorized(crypto, c.issuers, c.threshold,
                       RevocationDigest(crypto.sha,
                                        RevocationFields(c.networkId, AddressBytes(g.self).value, id,
                                                         g.payables[id].proofHash, crypto.sha(reason))),
                       signatures)
            && id in after.payables && after.payables[id] == g.payables[id].(status := Revoked)
            && after.history.log == g.history.log + [LoggedEvent(e.tx, e.ledger, PayableRevoked(id, reason))]
            && after.balances == g.balances
  {
    var c := g.config.value;
    var fields := Revocation(crypto, g, c, id, reason).value;
    SignatureCheckMeaning(crypto, c.issuers, c.threshold, RevocationDigest(crypto.sha, fields), signatures);
  }

  /** Registering takes at least `threshold` different issuers of the list in force at that moment, each with a
      valid signature over the digest of exactly these terms; that list and threshold are what is kept as the grant. */
  lemma RegistrationNeedsTheIssuersInForce(crypto: Crypto, g: Gate, e: Env, id: Bytes32, p: Payable,
                                           signatures: seq<IssuerSignature>)
    requires p.status.Ready? && Register(crypto, g, e, id, p, signatures).Done?
    ensures g.config.Some? && !g.config.value.paused && Fields(g, g.config.value, id, p).Some?
    ensures var c, fields, after :=
            g.config.value, Fields(g, g.config.value, id, p).value, Register(crypto, g, e, id, p, signatures).gate;
            Authorized(crypto, c.issuers, c.threshold, RegistrationDigest(crypto.sha, fields), signatures)
            && c.threshold <= |Members(Issuers(signatures))|
            && id !in g.payables && id in after.payables && after.payables[id] == p
            && id in after.history.grants
            && after.history.grants[id] == Grant(c.networkId, c.asset, c.issuers, c.threshold, signatures)
  {
    var c, fields := g.config.value, Fields(g, g.config.value, id, p).value;
    SignatureCheckMeaning(crypto, c.issuers, c.threshold, RegistrationDigest(crypto.sha, fields), signatures);
    DistinctCount(Issuers(signatures));
  }

  /** One signature covers one set of terms: two registrations with a common digest differ only in whether
      the recipient's (or the asset's, or the gate's) 32 bytes name an account or a contract, or SHA-256 is broken. */
  lemma DigestBindsTerms(crypto: Crypto, g: Gate, c: Config, id: Bytes32, p: Payable, g': Gate, c': Config,
                         id': Bytes32, p': Payable)
    requires Fields(g, c, id, p).Some? && Fields(g', c', id', p').Some?
    requires RegistrationDigest(crypto.sha, Fields(g, c, id, p).value)
             == RegistrationDigest(crypto.sha, Fields(g', c', id', p').value)
    ensures var f, f' := Fields(g, c, id, p).value, Fields(g', c', id', p').value;
            Collision(crypto.sha, Preimage(f), Preimage(f'))
            || (id == id' && SameTerms(p, p'.(recipient := p.recipient)) && c.networkId == c'.networkId
                && AddressBytes(p.recipient) == AddressBytes(p'.recipient)
                && (p.recipient == p'.recipient <==> p.recipient.Account? == p'.recipient.Account?)
                && (g.self == g'.self <==> g.self.Account? == g'.self.Account?)
                && (c.asset == c'.asset <==> c.asset.Account? == c'.asset.Account?))
  {
    var f, f' := Fields(g, c, id, p).value, Fields(g', c', id', p').value;
    if Preimage(f) == Preimage(f') {
      RegistrationPreimageIsInjective(f, f');
    }
  }

  /** The kind is really lost: an account and a contract with the same 32 bytes share every signature. */
  lemma KindIsNotSigned(g: Gate, c: Config, id: Bytes32, p: Payable, bytes: Bytes32)
    ensures Account(bytes) != Contract(bytes)
    ensures Fields(g, c, id, p.(recipient := Account(bytes))) == Fields(g, c, id, p.(recipient := Contract(bytes)))
  {
  }

  // ------------------------------------------------------------------ lifecycle

  /** An id once registered is never registered again, settled or not. */
  lemma NeverRegisteredTwice(crypto: Crypto, g: Gate, g': Gate, e: Env, id: Bytes32, p: Payable,
                             signatures: seq<IssuerSignature>)
    requires Leads(crypto, g, g') && id in g.payables && p.status.Ready?
    ensures Register(crypto, g', e, id, p, signatures).Refused?
    ensures g'.config.Some? && !g'.config.value.paused ==>
              Register(crypto, g', e, id, p, signatures) == Refused(PayableAlreadyExists)
  {
    LaterStatesAdvance(crypto, g, g');
  }

  /** A payable that left READY is refused ever after, whoever asks, and its status stands. */
  lemma TerminalIsForEver(crypto: Crypto, g: Gate, g': Gate, e: Env, id: Bytes32, reason: Octets,
                          signatures: seq<IssuerSignature>)
    requires Leads(crypto, g, g') && id in g.payables && !g.payables[id].status.Ready?
    ensures id in g'.payables && g'.payables[id] == g.payables[id]
    ensures Sane(g') && !Settle(g', e, id).Done? && !Expire(g', e, id).Done?
            && !Revoke(crypto, g', e, id, reason, signatures).Done?
  {
    LaterStatesAdvance(crypto, g, g');
    assert Matures(g.payables[id], g'.payables[id]);
  }

  /** At every instant a READY payable passes exactly one of the two time guards. */
  lemma ExactlyOneTimeGuard(g: Gate, e: Env, id: Bytes32)
    requires Sane(g) && id in g.payables && g.payables[id].status.Ready?
    requires g.config.Some? && !g.config.value.paused && g.config.value.executor in e.auth
    ensures Settle(g, e, id) == Refused(ProofExpired) <==> Expire(g, e, id).Done?
    ensures Settle(g, e, id) != Refused(ProofExpired) <==> Expire(g, e, id) == Refused(ProofNotExpired)
  {
  }

  /** A solvent vault pays a READY payable whenever nothing but its own rules could stop it. */
  lemma VaultPaysWhatIsReady(crypto: Crypto, g: Gate, e: Env, id: Bytes32)
    requires Inv(crypto, g) && g.config.Some? && IsVault(g, g.config.value)
    requires id in g.payables && g.payables[id].status.Ready? && e.tokenAccepts
    ensures Sane(g)
    ensures Settle(g, e, id).Done? <==>
              !g.config.value.paused && g.config.value.executor in e.auth && e.now <= g.payables[id].expiry
              && ChargeWindow(g, e.now, g.config.value, g.payables[id].amount).Charged?
  {
    InvIsSane(crypto, g);
    assert Holds(Funds, crypto, g);
    SumBounds(g.payables, g.payables.Keys);
    assert Owed(g.payables[id]) <= g.committed;
  }

  // ---------------------------------------------------------------- full sweep

  function LapsedIn(g: Gate, now: u64, ids: seq<Bytes32>): set<Bytes32> {
    set id | id in ids && Lapsed(g, now, id)
  }

  lemma LapsedInAppend(g: Gate, now: u64, ids: seq<Bytes32>, id: Bytes32)
    ensures LapsedIn(g, now, ids + [id]) == LapsedIn(g, now, ids) + if Lapsed(g, now, id) then {id} else {}
  {
    if Lapsed(g, now, id) {
      assert LapsedIn(g, now, ids + [id]) == LapsedIn(g, now, ids) + {id};
    } else {
      assert LapsedIn(g, now, ids + [id]) == LapsedIn(g, now, ids);
    }
  }

  /** What one sweep does, id by id, and the number it reports: duplicates and unknown ids count for nothing. */
  lemma {:induction false} SweepExpiresExactlyTheLapsed(g: Gate, e: Env, ids: seq<Bytes32>)
    requires Sane(g)
    ensures var (g', n) := ExpireBatch(g, e, ids);
            n == |LapsedIn(g, e.now, ids)|
            && g'.payables.Keys == g.payables.Keys
            && forall id :: id in g.payables ==>
                 g'.payables[id] == if id in LapsedIn(g, e.now, ids) then g.payables[id].(status := Expired)
                                    else g.payables[id]
  {
    if ids == [] {
      assert LapsedIn(g, e.now, ids) == {};
    } else {
      var rest, id := ids[..|ids| - 1], ids[|ids| - 1];
      SweepExpiresExactlyTheLapsed(g, e, rest);
      assert ids == rest + [id];
      LapsedInAppend(g, e.now, rest, id);
    }
  }

  ghost function ReadyIds(g: Gate): set<Bytes32> {
    set id | id in g.payables && g.payables[id].status.Ready?
  }

  lemma {:induction false} NothingReadyNothingOwed(payables: map<Bytes32, Payable>, ids: set<Bytes32>)
    requires ids <= payables.Keys && forall id :: id in ids ==> !payables[id].status.Ready?
    ensures SumOver(payables, ids) == 0
    decreases |ids|
  {
    if ids != {} {
      var id :| id in ids;
      SumTakesOut(payables, ids, id);
      NothingReadyNothingOwed(payables, ids - {id});
    }
  }

  /** More than seven days after the last registration one permissionless sweep over any covering list frees
      everything. */
  lemma FullSweepFreesEverything(crypto: Crypto, g: Gate, e: Env, ids: seq<Bytes32>)
    requires Reachable(crypto, g) && e.now > g.history.lastRegistration + LONGEST_PROOF_WINDOW_SECONDS
    requires forall id :: id in ReadyIds(g) ==> id in ids
    ensures Sane(g)
    ensures var (g', n) := ExpireBatch(g, e, ids);
            n == |ReadyIds(g)| && ReadyIds(g') == {} && g'.committed == 0
  {
    ReachableInv(crypto, g);
    assert Holds(Funds, crypto, g);
    var (g', n) := ExpireBatch(g, e, ids);
    SweepExpiresExactlyTheLapsed(g, e, ids);
    assert LapsedIn(g, e.now, ids) == ReadyIds(g);
    ExpireBatchKeepsInv(crypto, g, e, ids);
    assert Holds(Funds, crypto, g');
    NothingReadyNothingOwed(g'.payables, g'.payables.Keys);
  }

  // ----------------------------------------------------------------- spend cap

  /** The amounts of payments i up to, not including, j. */
  function Total(payments: seq<Payment>, i: nat, j: nat): int
    requires i <= j <= |payments|
    decreases j
  {
    if i == j then 0 else Total(payments, i, j - 1) + payments[j - 1].amount
  }

  ghost predicate Charges(payments: seq<Payment>) {
    forall k :: 0 <= k < |payments| ==> ChargedInOrder(payments, k)
  }

  lemma {:induction false} TotalSplits(payments: seq<Payment>, i: nat, m: nat, j: nat)
    requires i <= m <= j <= |payments|
    ensures Total(payments, i, j) == Total(payments, i, m) + Total(payments, m, j)
    decreases j
  {
    if m < j {
      TotalSplits(payments, i, m, j - 1);
    }
  }

  lemma {:induction false} TotalIsMonotone(payments: seq<Payment>, i: nat, j: nat)
    requires Charges(payments) && i <= j <= |payments|
    ensures Total(payments, i, j) >= 0
    decreases j
  {
    if i < j {
      assert ChargedInOrder(payments, j - 1);
      TotalIsMonotone(payments, i, j - 1);
    }
  }

  /** What a payment recorded as spent is what its window has paid so far, and its window opened with a payment. */
  lemma {:induction false} SpentIsWindowTotal(payments: seq<Payment>, k: nat)
    requires Charges(payments) && k < |payments|
    ensures payments[k].opening <= k && payments[k].spent == Total(payments, payments[k].opening, k + 1)
    ensures payments[payments[k].opening].opening == payments[k].opening
  {
    assert ChargedInOrder(payments, k);
    if payments[k].opening < k {
      SpentIsWindowTotal(payments, k - 1);
    }
  }

  lemma {:induction false} TimesAreOrdered(payments: seq<Payment>, i: nat, j: nat)
    requires Charges(payments) && i <= j < |payments|
    ensures payments[i].at <= payments[j].at
    decreases j
  {
    if i < j {
      assert ChargedInOrder(payments, j);
      TimesAreOrdered(payments, i, j - 1);
    }
  }

  /** A payment that opens a window comes strictly later than the one before it, unless the window length was cut in
      between. */
  lemma OpeningIsLater(payments: seq<Payment>, o: nat)
    requires Charges(payments) && 0 < o < |payments| && payments[o].opening == o
    requires payments[o - 1].windowSeconds <= payments[o].windowSeconds
    ensures payments[o - 1].at < payments[o].at
  {
    assert ChargedInOrder(payments, o) && ChargedInOrder(payments, o - 1);
    SpentIsWindowTotal(payments, o - 1);
  }

  predicate SameLimits(payments: seq<Payment>, i: nat, j: nat, seconds: u64, cap: i128)
    requires j < |payments|
  {
    forall k :: i <= k <= j ==> payments[k].windowSeconds == seconds && payments[k].maxPerWindow == cap
  }

  /** The window before the last one reaches back past any payment at most one window length old. */
  lemma TwoWindowsCover(payments: seq<Payment>, i: nat, j: nat, o: nat, seconds: u64, cap: i128)
    requires Charges(payments) && i < o <= j < |payments| && SameLimits(payments, i, j, seconds, cap)
    requires payments[o].opening == o && payments[j].at - payments[i].at <= seconds
    ensures payments[o - 1].opening <= i
  {
    var before := payments[o - 1].opening;
    SpentIsWindowTotal(payments, o - 1);
    assert ChargedInOrder(payments, o);
    TimesAreOrdered(payments, o, j);
    if before > i {
      OpeningIsLater(payments, before);
      TimesAreOrdered(payments, i, before - 1);
    }
  }

  /** The payments of one window, from any of them on, stay within the cap its last one was charged under. */
  lemma WindowIsCapped(payments: seq<Payment>, i: nat, k: nat)
    requires Charges(payments) && k < |payments| && payments[k].opening <= i <= k + 1
    ensures Total(payments, i, k + 1) <= payments[k].maxPerWindow
  {
    assert ChargedInOrder(payments, k);
    SpentIsWindowTotal(payments, k);
    TotalSplits(payments, payments[k].opening, i, k + 1);
    TotalIsMonotone(payments, payments[k].opening, i);
  }

  /** Any stretch of payments no longer than the window, ends included, comes to at most twice the cap. */
  lemma AnyIntervalIsCapped(payments: seq<Payment>, i: nat, j: nat, seconds: u64, cap: i128)
    requires Charges(payments) && i <= j < |payments| && SameLimits(payments, i, j, seconds, cap)
    requires payments[j].at - payments[i].at <= seconds
    ensures Total(payments, i, j + 1) <= 2 * cap
  {
    var o := payments[j].opening;
    SpentIsWindowTotal(payments, j);
    assert ChargedInOrder(payments, j);
    if o <= i {
      WindowIsCapped(payments, i, j);
      TotalIsMonotone(payments, i, j + 1);
    } else {
      TwoWindowsCover(payments, i, j, o, seconds, cap);
      WindowIsCapped(payments, i, o - 1);
      WindowIsCapped(payments, o, j);
      TotalSplits(payments, i, o, j + 1);
    }
  }

  /** Over whole runs: each window stays within the cap in force when it was last charged, and no interval
      of one window length pays more than twice the cap while the limits stand. */
  lemma SpendingIsCapped(crypto: Crypto, g: Gate, i: nat, j: nat, seconds: u64, cap: i128)
    requires Reachable(crypto, g)
    requires i <= j < |g.history.payments| && SameLimits(g.history.payments, i, j, seconds, cap)
    ensures var payments := g.history.payments;
            payments[j].opening <= j && Total(payments, payments[j].opening, j + 1) <= cap
            && (payments[j].at - payments[i].at <= seconds ==> Total(payments, i, j + 1) <= 2 * cap)
  {
    var payments := g.history.payments;
    ReachableInv(crypto, g);
    assert Holds(Spending, crypto, g);
    SpentIsWindowTotal(payments, j);
    assert ChargedInOrder(payments, j);
    if payments[j].at - payments[i].at <= seconds {
      AnyIntervalIsCapped(payments, i, j, seconds, cap);
    }
  }

  /** The amounts settled at or after a time. */
  function TotalSince(payments: seq<Payment>, start: u64): int {
    if payments == [] then 0
    else
      var n := |payments| - 1;
      TotalSince(payments[..n], start) + if payments[n].at >= start then payments[n].amount else 0
  }

  lemma {:induction false} TotalSinceSplits(payments: seq<Payment>, o: nat, n: nat, start: u64)
    requires Charges(payments) && o < |payments| && payments[o].at == start && n <= |payments|
    ensures n <= o ==> TotalSince(payments[..n], start) >= 0
    ensures n <= o && (o == 0 || payments[o - 1].at < start) ==> TotalSince(payments[..n], start) == 0
    ensures o < n ==> TotalSince(payments[..n], start) == TotalSince(payments[..o], start) + Total(payments, o, n)
    decreases n
  {
    if n > 0 {
      TotalSinceSplits(payments, o, n - 1, start);
      assert payments[..n][..n - 1] == payments[..n - 1];
      assert ChargedInOrder(payments, n - 1);
      if n <= o {
        TimesAreOrdered(payments, n - 1, o - 1);
      } else {
        TimesAreOrdered(payments, o, n - 1);
      }
    }
  }

  lemma ClockReading(payments: seq<Payment>, o: nat)
    requires Charges(payments) && o < |payments|
    ensures TotalSince(payments, payments[o].at) == Total(payments, o, |payments|)
            <==> o == 0 || payments[o - 1].at < payments[o].at
  {
    var n, start := |payments|, payments[o].at;
    TotalSinceSplits(payments, o, n, start);
    assert payments[..n] == payments;
    TotalSinceSplits(payments, o, o, start);
    if o > 0 && payments[o - 1].at >= start {
      TotalSinceSplits(payments, o, o - 1, start);
      assert payments[..o][..o - 1] == payments[..o - 1];
      assert ChargedInOrder(payments, o - 1);
    }
  }

  lemma WindowMeaning(payments: seq<Payment>, o: nat, window: SpendWindow, clock: u64)
    requires WindowKept(payments, o, Some(window), clock)
    ensures o < |payments| && window.startedAt == payments[o].at && window.spent == Total(payments, o, |payments|)
    ensures window.spent == TotalSince(payments, window.startedAt) <==> o == 0 || payments[o - 1].at < window.startedAt
  {
    SpentIsWindowTotal(payments, |payments| - 1);
    ClockReading(payments, o);
  }

  /** The stored figure is what was settled since the window opened; read by the clock instead of by order,
      this holds exactly when the payment before the opening one came strictly earlier. */
  lemma SpentSinceStart(crypto: Crypto, g: Gate)
    requires Reachable(crypto, g) && g.window.Some?
    ensures var payments, o, window := g.history.payments, g.history.opening, g.window.value;
            o < |payments|
            && window.startedAt == payments[o].at && window.spent == Total(payments, o, |payments|)
            && (window.spent == TotalSince(payments, window.startedAt)
                <==> o == 0 || payments[o - 1].at < window.startedAt)
  {
    ReachableInv(crypto, g);
    assert Holds(Spending, crypto, g);
    WindowMeaning(g.history.payments, g.history.opening, g.window.value, g.clock);
  }

  /** The clock reading of the stored figure: it is what was settled at or after the window's start. */
  ghost predicate ReadsByClock(g: Gate) {
    g.window.Some? ==> g.window.value.spent == TotalSince(g.history.payments, g.window.value.startedAt)
  }

  /** This settlement will start a window of its own. */
  predicate Reopens(g: Gate, now: u64, c: Config) {
    g.window.None? || now - g.window.value.startedAt >= c.windowSeconds
  }

  lemma WindowReading(crypto: Crypto, g: Gate)
    requires Inv(crypto, g)
    ensures g.window.Some? <==> g.history.payments != []
    ensures g.window.Some? ==>
              g.history.opening < |g.history.payments|
              && g.window.value.startedAt == g.history.payments[g.history.opening].at <= g.clock
              && (ReadsByClock(g) <==> g.history.opening == 0
                                       || g.history.payments[g.history.opening - 1].at < g.window.value.startedAt)
  {
    assert Holds(Spending, crypto, g);
    if g.window.Some? {
      WindowMeaning(g.history.payments, g.history.opening, g.window.value, g.clock);
      TimesAreOrdered(g.history.payments, g.history.opening, |g.history.payments| - 1);
    }
  }

  lemma SettleAppends(g: Gate, e: Env, id: Bytes32)
    requires Sane(g) && Settle(g, e, id).Done? && g.config.Some? && g.config.value.windowSeconds > 0
    requires g.window.Some? ==> g.window.value.startedAt <= e.now
    ensures var g', n := Settle(g, e, id).gate, |g.history.payments|;
            g'.window.Some? && |g'.history.payments| == n + 1 && g'.history.payments[..n] == g.history.payments
            && g'.history.payments[n].at == e.now
            && g'.history.opening == (if Reopens(g, e.now, g.config.value) then n else g.history.opening)
  {
  }

  /** A settlement leaves the clock reading true exactly when it starts no window at a moment already paid at,
      or continues one that read true. */
  lemma ClockReadingAfterSettling(crypto: Crypto, g: Gate, e: Env, id: Bytes32)
    requires Inv(crypto, g) && Sane(g) && g.clock == e.now && g.config.Some? && Settle(g, e, id).Done?
    ensures var payments := g.history.payments;
            ReadsByClock(Settle(g, e, id).gate) <==>
              if Reopens(g, e.now, g.config.value) then payments == [] || payments[|payments| - 1].at < e.now
              else ReadsByClock(g)
  {
    var g' := Settle(g, e, id).gate;
    var n := |g.history.payments|;
    SettleKeepsInv(crypto, g, g', e, id);
    assert Holds(Funds, crypto, g);
    WindowReading(crypto, g);
    SettleAppends(g, e, id);
    WindowReading(crypto, g');
    assert forall i :: 0 <= i < n ==> g'.history.payments[i] == g.history.payments[i];
  }

  /** Cutting the window length is how that happens: when the last payment was made in this very instant and the
      admin shortens the window to no more than its age, the next settlement leaves a figure that is not what was
      settled since the window's start. */
  lemma ShorterWindowForgets(crypto: Crypto, g: Gate, cut: Gate, e: Env, maxPerPayable: i128, shorter: u64,
                             cap: i128, id: Bytes32)
    requires Inv(crypto, g) && Sane(g) && g.clock == e.now
    requires Configure(g, e, Limits(maxPerPayable, shorter, cap)) == Done(cut)
    requires g.window.Some? && shorter <= e.now - g.window.value.startedAt
    requires g.history.payments != [] && g.history.payments[|g.history.payments| - 1].at == e.now
    requires Sane(cut) && Settle(cut, e, id).Done?
    ensures !ReadsByClock(Settle(cut, e, id).gate)
  {
    ConfigureKeepsInv(crypto, g, cut, e, Limits(maxPerPayable, shorter, cap));
    ClockReadingAfterSettling(crypto, cut, e, id);
  }
}
