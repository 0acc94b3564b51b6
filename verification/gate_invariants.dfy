/** What every entry point of the gate keeps, one predicate per concern, each over the fields it is about. */
module GateInvariants {
  import opened Primitives
  import opened Digest
  import opened GateSpec

  // ------------------------------------------------------------- signatures

  ghost predicate Distinct(keys: seq<Bytes32>) {
    forall i, j :: 0 <= i < j < |keys| ==> keys[i] != keys[j]
  }

  /** At least `threshold` signatures, all valid, all by listed issuers, no issuer twice. */
  ghost predicate Authorized(crypto: Crypto, issuers: seq<Bytes32>, threshold: nat, digest: Bytes32,
                             signatures: seq<IssuerSignature>) {
    |signatures| >= threshold
    && Distinct(Issuers(signatures))
    && (forall s :: s in signatures ==> s.issuer in issuers && crypto.verifies(s.issuer, digest, s.signature))
  }

  lemma {:induction false} CheckFromMeaning(crypto: Crypto, issuers: seq<Bytes32>, digest: Bytes32,
                                            signatures: seq<IssuerSignature>, i: nat)
    requires i <= |signatures| && Distinct(Issuers(signatures[..i]))
    ensures CheckFrom(crypto, issuers, digest, signatures, i).Accepted? <==>
      Distinct(Issuers(signatures))
      && forall k :: i <= k < |signatures| ==>
        signatures[k].issuer in issuers && crypto.verifies(signatures[k].issuer, digest, signatures[k].signature)
    decreases |signatures| - i
  {
    if i == |signatures| {
      assert signatures[..i] == signatures;
    } else {
      var seen, next := Issuers(signatures[..i]), Issuers(signatures[..i + 1]);
      var all := Issuers(signatures);
      assert next == seen + [signatures[i].issuer];
      if signatures[i].issuer in seen {
        var k :| 0 <= k < i && seen[k] == signatures[i].issuer;
        assert all[k] == all[i];
      } else {
        CheckFromMeaning(crypto, issuers, digest, signatures, i + 1);
      }
    }
  }

  /** A batch of signatures is accepted exactly when it authorizes; anything else is an error or a trap. */
  lemma SignatureCheckMeaning(crypto: Crypto, issuers: seq<Bytes32>, threshold: nat, digest: Bytes32,
                              signatures: seq<IssuerSignature>)
    ensures CheckSignatures(crypto, issuers, threshold, digest, signatures).Accepted?
            <==> Authorized(crypto, issuers, threshold, digest, signatures)
  {
    CheckFromMeaning(crypto, issuers, digest, signatures, 0);
  }

  ghost function Members(keys: seq<Bytes32>): set<Bytes32> {
    set k | k in keys
  }

  lemma {:induction false} DistinctCount(keys: seq<Bytes32>)
    requires Distinct(keys)
    ensures |Members(keys)| == |keys|
  {
    if keys == [] {
      assert Members(keys) == {};
    } else {
      var n := |keys| - 1;
      DistinctCount(keys[..n]);
      assert Members(keys) == Members(keys[..n]) + {keys[n]};
    }
  }

  lemma SubsetCount(a: set<Bytes32>, b: set<Bytes32>)
    requires a <= b
    ensures |a| <= |b|
  {
    if a != {} {
      var x :| x in a;
      SubsetCount(a - {x}, b - {x});
    }
  }

  lemma SignersAreListed(
    crypto: Crypto, issuers: seq<Bytes32>, threshold: nat, digest: Bytes32, signatures: seq<IssuerSignature>)
    requires Authorized(crypto, issuers, threshold, digest, signatures)
    ensures threshold <= |Members(Issuers(signatures))| <= |Members(issuers)|
  {
    var signers := Issuers(signatures);
    DistinctCount(signers);
    forall k | k in Members(signers) ensures k in Members(issuers) {
      var i :| 0 <= i < |signers| && signers[i] == k;
      assert signatures[i] in signatures;
    }
    SubsetCount(Members(signers), Members(issuers));
  }

  /** Every issuer on the list is able to sign the digest. */
  ghost predicate AllCanSign(crypto: Crypto, issuers: seq<Bytes32>, digest: Bytes32) {
    forall k :: k in issuers ==> exists s :: crypto.verifies(k, digest, s)
  }

  lemma {:induction false} OneSignatureEach(crypto: Crypto, issuers: seq<Bytes32>, digest: Bytes32, keys: set<Bytes32>)
    returns (signatures: seq<IssuerSignature>)
    requires AllCanSign(crypto, issuers, digest) && keys <= Members(issuers)
    ensures |signatures| == |keys| && Members(Issuers(signatures)) == keys
    ensures Authorized(crypto, issuers, |keys|, digest, signatures)
    decreases |keys|
  {
    if keys == {} {
      signatures := [];
    } else {
      var k :| k in keys;
      var rest := OneSignatureEach(crypto, issuers, digest, keys - {k});
      var s :| crypto.verifies(k, digest, s);
      signatures := rest + [IssuerSignature(k, s)];
      assert Issuers(signatures) == Issuers(rest) + [k];
      assert Members(Issuers(rest) + [k]) == Members(Issuers(rest)) + {k};
    }
  }

  /** The setters compare the threshold with the length of the list, repetitions included. When every listed
      issuer can sign, a threshold can be met exactly when it does not exceed the number of different issuers;
      above that, registration, revocation and attestation are locked. */
  lemma ThresholdIsReachableOnlyUpToDistinctIssuers(
    crypto: Crypto, issuers: seq<Bytes32>, threshold: nat, digest: Bytes32)
    requires AllCanSign(crypto, issuers, digest)
    ensures (exists signatures :: Authorized(crypto, issuers, threshold, digest, signatures))
            <==> threshold <= |Members(issuers)|
  {
    if signatures :| Authorized(crypto, issuers, threshold, digest, signatures) {
      SignersAreListed(crypto, issuers, threshold, digest, signatures);
    }
    if threshold <= |Members(issuers)| {
      var signatures := OneSignatureEach(crypto, issuers, digest, Members(issuers));
      assert Authorized(crypto, issuers, threshold, digest, signatures);
    }
  }

  /** Such a threshold is let through: naming one issuer twice makes room for a threshold of two. */
  lemma SetterAcceptsUnreachableThreshold(k: Bytes32)
    ensures SettingRefusal(ProofIssuers([k, k], 2)).None? && |Members([k, k])| == 1
  {
    assert Members([k, k]) == {k};
  }

  // ------------------------------------------------- the sum over the payables

  function Owed(p: Payable): int {
    if p.status.Ready? then p.amount else 0
  }

  ghost function SumOver(payables: map<Bytes32, Payable>, ids: set<Bytes32>): int
    requires ids <= payables.Keys
    decreases |ids|
  {
    if ids == {} then 0
    else
      var id :| id in ids;
      Owed(payables[id]) + SumOver(payables, ids - {id})
  }

  /** The amounts of every payable that is READY now. */
  ghost function ReadySum(payables: map<Bytes32, Payable>): int {
    SumOver(payables, payables.Keys)
  }

  lemma {:induction false} SumTakesOut(payables: map<Bytes32, Payable>, ids: set<Bytes32>, x: Bytes32)
    requires x in ids && ids <= payables.Keys
    ensures SumOver(payables, ids) == Owed(payables[x]) + SumOver(payables, ids - {x})
    decreases |ids|
  {
    var id :| id in ids && SumOver(payables, ids) == Owed(payables[id]) + SumOver(payables, ids - {id});
    if id != x {
      SumTakesOut(payables, ids - {id}, x);
      SumTakesOut(payables, ids - {x}, id);
      assert ids - {id} - {x} == ids - {x} - {id};
    }
  }

  lemma {:induction false} SumDependsOnMembers(p: map<Bytes32, Payable>, q: map<Bytes32, Payable>, ids: set<Bytes32>)
    requires ids <= p.Keys && ids <= q.Keys && forall id :: id in ids ==> p[id] == q[id]
    ensures SumOver(p, ids) == SumOver(q, ids)
    decreases |ids|
  {
    if ids != {} {
      var id :| id in ids;
      SumTakesOut(p, ids, id);
      SumTakesOut(q, ids, id);
      SumDependsOnMembers(p, q, ids - {id});
    }
  }

  lemma SumPut(payables: map<Bytes32, Payable>, id: Bytes32, p: Payable)
    ensures ReadySum(payables[id := p])
            == ReadySum(payables) - (if id in payables then Owed(payables[id]) else 0) + Owed(p)
  {
    var q := payables[id := p];
    var rest := payables.Keys - {id};
    SumTakesOut(q, q.Keys, id);
    assert q.Keys - {id} == rest;
    SumDependsOnMembers(payables, q, rest);
    if id in payables {
      SumTakesOut(payables, payables.Keys, id);
    } else {
      assert rest == payables.Keys;
    }
  }

  lemma {:induction false} SumBounds(payables: map<Bytes32, Payable>, ids: set<Bytes32>)
    requires ids <= payables.Keys && forall id :: id in payables ==> payables[id].amount > 0
    ensures SumOver(payables, ids) >= 0
    ensures forall id :: id in ids ==> Owed(payables[id]) <= SumOver(payables, ids)
    decreases |ids|
  {
    forall id | id in ids ensures Owed(payables[id]) <= SumOver(payables, ids) && SumOver(payables, ids) >= 0 {
      SumTakesOut(payables, ids, id);
      SumBounds(payables, ids - {id});
    }
  }

  // -------------------------------------------------------------- invariants

  /** The running total is the sum it stands for, and a vault holds at least that much. */
  ghost predicate Solvent(g: Gate) {
    (forall id :: id in g.payables ==> g.payables[id].amount > 0)
    && g.committed == ReadySum(g.payables)
    && (g.config.Some? && IsVault(g, g.config.value) ==> g.committed <= Balance(g, g.self))
  }

  ghost predicate Configured(g: Gate) {
    if g.config.None? then
      g.payables == map[] && g.committed == 0 && g.window.None? && g.history.payments == []
        && g.history.withdrawals == []
    else
      ValidThreshold(g.config.value.issuers, g.config.value.threshold)
      && ValidLimits(g.config.value.maxPerPayable, g.config.value.windowSeconds, g.config.value.maxPerWindow)
  }

  function ClosingEvent(id: Bytes32, p: Payable, event: Event): bool {
    match p.status
    case Ready => false
    case Settled => event == SettlementExecuted(id, p.recipient, p.amount, p.proofHash)
    case Expired => event == PayableExpired(id, p.expiry)
    case Revoked => event.PayableRevoked? && event.id == id
  }

  ghost predicate OpenedAt(log: seq<LoggedEvent>, k: nat, id: Bytes32, p: Payable) {
    1 <= k < |log|
    && log[k].event == PayableReady(id, p.recipient, p.amount, p.expiry)
    && log[k - 1].event == PayableRegistered(id, p.proofHash)
  }

  ghost predicate ClosedAt(log: seq<LoggedEvent>, k: nat, id: Bytes32, p: Payable) {
    k < |log| && ClosingEvent(id, p, log[k].event)
  }

  ghost predicate Openings(payables: map<Bytes32, Payable>, log: seq<LoggedEvent>, readied: map<Bytes32, nat>) {
    readied.Keys == payables.Keys
    && forall id :: id in payables ==> OpenedAt(log, readied[id], id, payables[id])
  }

  ghost predicate Closings(payables: map<Bytes32, Payable>, log: seq<LoggedEvent>, closed: map<Bytes32, nat>) {
    (forall id :: id in closed <==> id in payables && !payables[id].status.Ready?)
    && (forall id :: id in closed ==> ClosedAt(log, closed[id], id, payables[id]))
  }

  /** An event about entering or leaving READY is the one its payable's history points at. */
  predicate Traced(event: Event, i: nat, readied: map<Bytes32, nat>, closed: map<Bytes32, nat>) {
    match event
    case PayableRegistered(id, _) => id in readied && readied[id] == i + 1
    case PayableReady(id, _, _, _) => id in readied && readied[id] == i
    case SettlementExecuted(id, _, _, _) => id in closed && closed[id] == i
    case PayableExpired(id, _) => id in closed && closed[id] == i
    case PayableRevoked(id, _) => id in closed && closed[id] == i
    case _ => true
  }

  ghost predicate AllTraced(log: seq<LoggedEvent>, readied: map<Bytes32, nat>, closed: map<Bytes32, nat>) {
    forall i :: 0 <= i < |log| ==> Traced(log[i].event, i, readied, closed)
  }

  /** The log tells the payables' story: one registration each, one closing event exactly for those that
      left READY, the registration first. */
  ghost predicate Chronicled(payables: map<Bytes32, Payable>, h: History) {
    Openings(payables, h.log, h.readied) && Closings(payables, h.log, h.closed) && AllTraced(h.log, h.readied, h.closed)
    && forall id :: id in h.closed ==> id in h.readied && h.readied[id] < h.closed[id]
  }

  predicate PaymentOf(payment: Payment, id: Bytes32, p: Payable) {
    payment.id == id && payment.to == p.recipient && payment.amount == p.amount
  }

  /** Payments and SETTLED payables correspond one to one, recipient and amount included. */
  ghost predicate PaidOnce(payables: map<Bytes32, Payable>, payments: seq<Payment>, paid: map<Bytes32, nat>) {
    (forall id :: id in paid <==> id in payables && payables[id].status.Settled?)
    && (forall id :: id in paid ==> paid[id] < |payments| && PaymentOf(payments[paid[id]], id, payables[id]))
    && (forall k :: 0 <= k < |payments| ==> payments[k].id in paid && paid[payments[k].id] == k)
  }

  /** Every payable was registered under signatures over its own terms and this deployment. */
  ghost predicate Granted(crypto: Crypto, self: Address, config: Option<Config>, payables: map<Bytes32, Payable>,
                          grants: map<Bytes32, Grant>) {
    grants.Keys == payables.Keys
    && (forall id :: id in payables ==>
        config.Some? && GrantHolds(crypto, self, config.value, id, payables[id], grants[id]))
  }

  ghost predicate GrantHolds(crypto: Crypto, self: Address, c: Config, id: Bytes32, p: Payable, grant: Grant) {
    grant.networkId == c.networkId && grant.asset == c.asset && grant.threshold > 0
    && AddressBytes(self).Some? && AddressBytes(p.recipient).Some? && AddressBytes(c.asset).Some?
    && Authorized(crypto, grant.issuers, grant.threshold,
                  RegistrationDigest(crypto.sha, RegistrationFields(
                    c.networkId, AddressBytes(self).value, id, p.proofHash, AddressBytes(p.recipient).value,
                    AddressBytes(c.asset).value, p.amount, p.policyHash, p.expiry)),
                  grant.signatures)
  }

  function PaidOut(payments: seq<Payment>, self: Address): int {
    if payments == [] then 0
    else
      var last := payments[|payments| - 1];
      PaidOut(payments[..|payments| - 1], self) + if last.to == self then 0 else last.amount
  }

  function WithdrawnOut(withdrawals: seq<Withdrawal>, self: Address): int {
    if withdrawals == [] then 0
    else
      var last := withdrawals[|withdrawals| - 1];
      WithdrawnOut(withdrawals[..|withdrawals| - 1], self) + if last.to == self then 0 else last.amount
  }

  /** The gate's balance is what came in, less what it paid and withdrew to others. */
  ghost predicate Conserved(g: Gate) {
    Balance(g, g.self) ==
      g.history.received
      - (if g.config.Some? && IsVault(g, g.config.value)
         then PaidOut(g.history.payments, g.self) + WithdrawnOut(g.history.withdrawals, g.self) else 0)
  }

  /** How payment k was charged, in terms of the payments before it. */
  ghost predicate ChargedInOrder(payments: seq<Payment>, k: int)
    requires 0 <= k < |payments|
  {
    var p := payments[k];
    p.amount > 0 && p.windowSeconds > 0 && p.spent <= p.maxPerWindow && p.opening <= k
    && (k > 0 ==> payments[k - 1].at <= p.at && payments[k - 1].opening < k)
    && (if p.opening == k then
          p.spent == p.amount
          && (k > 0 ==> p.at - payments[payments[k - 1].opening].at >= p.windowSeconds)
        else
          p.opening == payments[k - 1].opening
          && p.spent == payments[k - 1].spent + p.amount
          && p.at - payments[p.opening].at < p.windowSeconds)
  }

  /** The stored window is the last payment's. */
  ghost predicate WindowKept(payments: seq<Payment>, opening: nat, window: Option<SpendWindow>, clock: u64) {
    (forall k :: 0 <= k < |payments| ==> ChargedInOrder(payments, k))
    && (if payments == [] then window.None?
        else
          var last := payments[|payments| - 1];
          last.opening == opening && opening < |payments| && last.at <= clock
          && window == Some(SpendWindow(payments[opening].at, last.spent)))
  }

  /** No expiry lies more than seven days past the latest registration. */
  ghost predicate Dated(g: Gate) {
    g.history.lastRegistration <= g.clock
    && forall id :: id in g.payables ==>
      g.payables[id].expiry <= g.history.lastRegistration + LONGEST_PROOF_WINDOW_SECONDS
  }

  datatype Concern = Funds | Log | Payments | Grants | Spending

  ghost predicate Holds(concern: Concern, crypto: Crypto, g: Gate) {
    match concern
    case Funds => Solvent(g) && Configured(g) && Conserved(g) && Dated(g)
    case Log => Chronicled(g.payables, g.history)
    case Payments => PaidOnce(g.payables, g.history.payments, g.history.paid)
    case Grants => Granted(crypto, g.self, g.config, g.payables, g.history.grants)
    case Spending => WindowKept(g.history.payments, g.history.opening, g.window, g.clock)
  }

  ghost predicate Inv(crypto: Crypto, g: Gate) {
    forall concern :: Holds(concern, crypto, g)
  }

  lemma InvIsSane(crypto: Crypto, g: Gate)
    requires Inv(crypto, g)
    ensures Sane(g)
  {
    assert Holds(Funds, crypto, g);
    SumBounds(g.payables, g.payables.Keys);
  }

  // ------------------------------------------------ registering and closing

  lemma OpeningStays(payables: map<Bytes32, Payable>, log: seq<LoggedEvent>, readied: map<Bytes32, nat>, x: LoggedEvent)
    requires Openings(payables, log, readied)
    ensures Openings(payables, log + [x], readied)
  {
    forall id | id in payables ensures OpenedAt(log + [x], readied[id], id, payables[id]) {
      assert OpenedAt(log, readied[id], id, payables[id]);
    }
  }

  lemma ClosingStays(payables: map<Bytes32, Payable>, log: seq<LoggedEvent>, closed: map<Bytes32, nat>, x: LoggedEvent)
    requires Closings(payables, log, closed)
    ensures Closings(payables, log + [x], closed)
  {
    forall id | id in closed ensures ClosedAt(log + [x], closed[id], id, payables[id]) {
      assert ClosedAt(log, closed[id], id, payables[id]);
    }
  }

  lemma TracePoints(log: seq<LoggedEvent>, readied: map<Bytes32, nat>, closed: map<Bytes32, nat>, x: LoggedEvent)
    requires AllTraced(log, readied, closed) && Traced(x.event, |log|, readied, closed)
    ensures AllTraced(log + [x], readied, closed)
  {
  }

  lemma NeutralEventKeepsLog(payables: map<Bytes32, Payable>, h: History, e: Env, event: Event)
    requires Chronicled(payables, h) && Neutral(event)
    ensures Chronicled(payables, Logged(h, e, event))
  {
    var x := LoggedEvent(e.tx, e.ledger, event);
    OpeningStays(payables, h.log, h.readied, x);
    ClosingStays(payables, h.log, h.closed, x);
    TracePoints(h.log, h.readied, h.closed, x);
  }

  predicate Neutral(event: Event) {
    !event.PayableRegistered? && !event.PayableReady? && !event.SettlementExecuted? && !event.PayableExpired?
      && !event.PayableRevoked?
  }

  lemma NewIdKeepsTraces(log: seq<LoggedEvent>, readied: map<Bytes32, nat>, closed: map<Bytes32, nat>, id: Bytes32,
                         k: nat)
    requires AllTraced(log, readied, closed) && id !in readied
    ensures AllTraced(log, readied[id := k], closed)
  {
    forall i | 0 <= i < |log| ensures Traced(log[i].event, i, readied[id := k], closed) {
      assert Traced(log[i].event, i, readied, closed);
    }
  }

  lemma ClosedIdKeepsTraces(log: seq<LoggedEvent>, readied: map<Bytes32, nat>, closed: map<Bytes32, nat>,
                            id: Bytes32, k: nat)
    requires AllTraced(log, readied, closed) && id !in closed
    ensures AllTraced(log, readied, closed[id := k])
  {
    forall i | 0 <= i < |log| ensures Traced(log[i].event, i, readied, closed[id := k]) {
      assert Traced(log[i].event, i, readied, closed);
    }
  }

  lemma OpeningPut(payables: map<Bytes32, Payable>, log: seq<LoggedEvent>, readied: map<Bytes32, nat>, id: Bytes32,
                   p: Payable, k: nat)
    requires Openings(payables, log, readied) && OpenedAt(log, k, id, p)
    ensures Openings(payables[id := p], log, readied[id := k])
  {
  }

  lemma OpeningStatus(payables: map<Bytes32, Payable>, log: seq<LoggedEvent>, readied: map<Bytes32, nat>,
                      id: Bytes32, status: Status)
    requires Openings(payables, log, readied) && id in payables
    ensures Openings(payables[id := payables[id].(status := status)], log, readied)
  {
    assert OpenedAt(log, readied[id], id, payables[id]);
  }

  lemma ClosingPut(payables: map<Bytes32, Payable>, log: seq<LoggedEvent>, closed: map<Bytes32, nat>, id: Bytes32,
                   p: Payable, k: nat)
    requires Closings(payables, log, closed) && ClosedAt(log, k, id, p) && !p.status.Ready?
    ensures Closings(payables[id := p], log, closed[id := k])
  {
  }

  lemma ClosingNewReady(payables: map<Bytes32, Payable>, log: seq<LoggedEvent>, closed: map<Bytes32, nat>,
                        id: Bytes32, p: Payable)
    requires Closings(payables, log, closed) && id !in payables && p.status.Ready?
    ensures Closings(payables[id := p], log, closed)
  {
  }

  lemma AddPayableKeepsLog(payables: map<Bytes32, Payable>, h: History, x: LoggedEvent, y: LoggedEvent, id: Bytes32,
                           p: Payable)
    requires Chronicled(payables, h) && id !in payables && p.status.Ready?
    requires x.event == PayableRegistered(id, p.proofHash)
             && y.event == PayableReady(id, p.recipient, p.amount, p.expiry)
    ensures Chronicled(payables[id := p], h.(log := h.log + [x] + [y], readied := h.readied[id := |h.log| + 1]))
  {
    var n := |h.log|;
    OpeningStays(payables, h.log, h.readied, x);
    OpeningStays(payables, h.log + [x], h.readied, y);
    OpeningPut(payables, h.log + [x] + [y], h.readied, id, p, n + 1);
    ClosingStays(payables, h.log, h.closed, x);
    ClosingStays(payables, h.log + [x], h.closed, y);
    ClosingNewReady(payables, h.log + [x] + [y], h.closed, id, p);
    NewIdKeepsTraces(h.log, h.readied, h.closed, id, n + 1);
    TracePoints(h.log, h.readied[id := n + 1], h.closed, x);
    TracePoints(h.log + [x], h.readied[id := n + 1], h.closed, y);
  }

  lemma CloseKeepsLog(payables: map<Bytes32, Payable>, h: History, x: LoggedEvent, id: Bytes32, status: Status)
    requires Chronicled(payables, h) && id in payables && payables[id].status.Ready? && !status.Ready?
    requires ClosingEvent(id, payables[id].(status := status), x.event)
    ensures Chronicled(payables[id := payables[id].(status := status)],
                       h.(log := h.log + [x], closed := h.closed[id := |h.log|]))
  {
    var n := |h.log|;
    var p := payables[id].(status := status);
    OpeningStays(payables, h.log, h.readied, x);
    OpeningStatus(payables, h.log + [x], h.readied, id, status);
    ClosingStays(payables, h.log, h.closed, x);
    ClosingPut(payables, h.log + [x], h.closed, id, p, n);
    ClosedIdKeepsTraces(h.log, h.readied, h.closed, id, n);
    TracePoints(h.log, h.readied, h.closed[id := n], x);
    assert OpenedAt(h.log, h.readied[id], id, payables[id]);
  }

  /** What leaving READY releases is exactly what registering committed. */
  lemma CloseReleases(g: Gate, e: Env, id: Bytes32, status: Status, event: Event)
    requires Solvent(g) && id in g.payables && g.payables[id].status.Ready? && !status.Ready?
    ensures 0 < g.payables[id].amount <= g.committed
    ensures var g' := Close(g, e, id, status, event);
            g'.committed == g.committed - g.payables[id].amount && g'.committed == ReadySum(g'.payables)
  {
    SumBounds(g.payables, g.payables.Keys);
    SumPut(g.payables, id, g.payables[id].(status := status));
  }

  lemma StatusKeepsGrants(crypto: Crypto, self: Address, config: Option<Config>, payables: map<Bytes32, Payable>,
                          grants: map<Bytes32, Grant>, id: Bytes32, status: Status)
    requires Granted(crypto, self, config, payables, grants) && id in payables
    ensures Granted(crypto, self, config, payables[id := payables[id].(status := status)], grants)
  {
    var payables' := payables[id := payables[id].(status := status)];
    assert payables'.Keys == payables.Keys;
    forall i | i in payables' ensures GrantHolds(crypto, self, config.value, i, payables'[i], grants[i]) {
      assert GrantHolds(crypto, self, config.value, i, payables[i], grants[i]);
    }
  }

  lemma UnpaidCloseKeepsPayments(payables: map<Bytes32, Payable>, payments: seq<Payment>, paid: map<Bytes32, nat>,
                                 id: Bytes32, status: Status)
    requires PaidOnce(payables, payments, paid) && id in payables && payables[id].status.Ready? && !status.Settled?
    ensures PaidOnce(payables[id := payables[id].(status := status)], payments, paid)
  {
  }

  lemma CloseKeepsFunds(g: Gate, e: Env, id: Bytes32, status: Status, event: Event)
    requires Solvent(g) && Configured(g) && Conserved(g) && Dated(g) && Sane(g)
    requires id in g.payables && g.payables[id].status.Ready? && !status.Ready?
    ensures var g' := Close(g, e, id, status, event); Solvent(g') && Configured(g') && Conserved(g') && Dated(g')
  {
    CloseReleases(g, e, id, status, event);
  }

  lemma CloseKeepsInv(crypto: Crypto, g: Gate, e: Env, id: Bytes32, status: Status, event: Event)
    requires Inv(crypto, g) && Sane(g) && id in g.payables && g.payables[id].status.Ready?
    requires status == Expired || status == Revoked
    requires ClosingEvent(id, g.payables[id].(status := status), event)
    ensures Inv(crypto, Close(g, e, id, status, event))
  {
    var g' := Close(g, e, id, status, event);
    forall concern ensures Holds(concern, crypto, g') {
      assert Holds(concern, crypto, g);
      match concern
      case Funds => CloseKeepsFunds(g, e, id, status, event);
      case Log => CloseKeepsLog(g.payables, g.history, LoggedEvent(e.tx, e.ledger, event), id, status);
      case Payments => UnpaidCloseKeepsPayments(g.payables, g.history.payments, g.history.paid, id, status);
      case Grants => StatusKeepsGrants(crypto, g.self, g.config, g.payables, g.history.grants, id, status);
      case Spending =>
    }
  }

  // ----------------------------------------------------------------- paying

  /** A transfer moves exactly the amount, and only between its two ends. */
  lemma MoveBalances(balances: map<Address, nat>, from: Address, to: Address, amount: nat, who: Address)
    requires amount > 0 && from in balances && amount <= balances[from]
    ensures var after := Move(balances, from, to, amount);
            var was := if who in balances then balances[who] else 0;
            (if who in after then after[who] else 0)
            == was - (if who == from then amount else 0) + (if who == to then amount else 0)
  {
  }

  lemma PayingIsPaidOnce(payables: map<Bytes32, Payable>, payments: seq<Payment>, paid: map<Bytes32, nat>,
                         id: Bytes32, payment: Payment)
    requires PaidOnce(payables, payments, paid) && id in payables && payables[id].status.Ready?
    requires PaymentOf(payment, id, payables[id])
    ensures PaidOnce(payables[id := payables[id].(status := Settled)], payments + [payment], paid[id := |payments|])
  {
    var after := payments + [payment];
    forall i | i in paid[id := |payments|]
      ensures paid[id := |payments|][i] < |after| && PaymentOf(after[paid[id := |payments|][i]], i, payables[i])
    {
      if i != id { assert PaymentOf(payments[paid[i]], i, payables[i]); }
    }
  }

  lemma WindowStaysInOrder(payments: seq<Payment>, x: Payment)
    requires forall k :: 0 <= k < |payments| ==> ChargedInOrder(payments, k)
    requires ChargedInOrder(payments + [x], |payments|)
    ensures forall k :: 0 <= k < |payments| + 1 ==> ChargedInOrder(payments + [x], k)
  {
    forall k | 0 <= k < |payments| ensures ChargedInOrder(payments + [x], k) {
      assert ChargedInOrder(payments, k);
    }
  }

  lemma ChargeKeepsWindow(g: Gate, now: u64, c: Config, id: Bytes32, to: Address, amount: i128)
    requires WindowKept(g.history.payments, g.history.opening, g.window, g.clock) && g.clock <= now
    requires amount > 0 && c.windowSeconds > 0 && ChargeWindow(g, now, c, amount).Charged?
    ensures var charge := ChargeWindow(g, now, c, amount);
            var opening := if charge.opens then |g.history.payments| else g.history.opening;
            var payment := Payment(id, to, amount, now, c.windowSeconds, c.maxPerWindow, opening, charge.window.spent);
            WindowKept(g.history.payments + [payment], opening, Some(charge.window), now)
  {
    var payments, charge := g.history.payments, ChargeWindow(g, now, c, amount);
    var opening := if charge.opens then |payments| else g.history.opening;
    var payment := Payment(id, to, amount, now, c.windowSeconds, c.maxPerWindow, opening, charge.window.spent);
    assert payments != [] ==> ChargedInOrder(payments, |payments| - 1);
    WindowStaysInOrder(payments, payment);
  }

  lemma OutgoingAppend(payments: seq<Payment>, x: Payment, self: Address)
    ensures PaidOut(payments + [x], self) == PaidOut(payments, self) + if x.to == self then 0 else x.amount
  {
    assert (payments + [x])[..|payments|] == payments;
  }

  lemma WithdrawnAppend(withdrawals: seq<Withdrawal>, x: Withdrawal, self: Address)
    ensures WithdrawnOut(withdrawals + [x], self) == WithdrawnOut(withdrawals, self)
                                                        + if x.to == self then 0 else x.amount
  {
    assert (withdrawals + [x])[..|withdrawals|] == withdrawals;
  }

  /** The obligation and the balance fall together, so paying frees nothing and leaves the vault solvent. */
  lemma PayKeepsFunds(g: Gate, e: Env, c: Config, id: Bytes32, window: SpendWindow, opens: bool)
    requires Solvent(g) && Configured(g) && Conserved(g) && Dated(g) && Sane(g) && g.config == Some(c)
    requires id in g.payables && g.payables[id].status.Ready? && g.payables[id].amount <= Balance(g, c.payer)
    ensures var g' := Pay(g, e, c, id, window, opens); Solvent(g') && Configured(g') && Conserved(g') && Dated(g')
  {
    var p := g.payables[id];
    var g' := Pay(g, e, c, id, window, opens);
    CloseReleases(g, e, id, Settled, SettlementExecuted(id, p.recipient, p.amount, p.proofHash));
    MoveBalances(g.balances, c.payer, p.recipient, p.amount, g.self);
    var k := |g.history.payments|;
    OutgoingAppend(g.history.payments, g'.history.payments[k], g.self);
  }

  lemma PayKeepsInv(crypto: Crypto, g: Gate, e: Env, c: Config, id: Bytes32)
    requires Inv(crypto, g) && Sane(g) && g.config == Some(c) && g.clock == e.now
    requires id in g.payables && g.payables[id].status.Ready? && g.payables[id].amount <= Balance(g, c.payer)
    requires ChargeWindow(g, e.now, c, g.payables[id].amount).Charged?
    ensures var charge := ChargeWindow(g, e.now, c, g.payables[id].amount);
            Inv(crypto, Pay(g, e, c, id, charge.window, charge.opens))
  {
    var p := g.payables[id];
    var charge := ChargeWindow(g, e.now, c, p.amount);
    var event := SettlementExecuted(id, p.recipient, p.amount, p.proofHash);
    var g' := Pay(g, e, c, id, charge.window, charge.opens);
    assert Holds(Funds, crypto, g);
    forall concern ensures Holds(concern, crypto, g') {
      assert Holds(concern, crypto, g);
      match concern
      case Funds => PayKeepsFunds(g, e, c, id, charge.window, charge.opens);
      case Log => CloseKeepsLog(g.payables, g.history, LoggedEvent(e.tx, e.ledger, event), id, Settled);
      case Payments =>
        PayingIsPaidOnce(g.payables, g.history.payments, g.history.paid, id, g'.history.payments[|g.history.payments|]);
      case Grants => StatusKeepsGrants(crypto, g.self, g.config, g.payables, g.history.grants, id, Settled);
      case Spending => ChargeKeepsWindow(g, e.now, c, id, p.recipient, p.amount);
    }
  }

  // ------------------------------------------------------------ registering

  lemma NewGrant(crypto: Crypto, self: Address, config: Option<Config>, payables: map<Bytes32, Payable>,
                 grants: map<Bytes32, Grant>, id: Bytes32, p: Payable, grant: Grant)
    requires Granted(crypto, self, config, payables, grants) && config.Some?
    requires GrantHolds(crypto, self, config.value, id, p, grant)
    ensures Granted(crypto, self, config, payables[id := p], grants[id := grant])
  {
  }

  lemma AddPayableKeepsFunds(g: Gate, e: Env, c: Config, id: Bytes32, p: Payable, signatures: seq<IssuerSignature>)
    requires Solvent(g) && Configured(g) && Conserved(g) && Dated(g) && Sane(g) && g.config == Some(c)
             && g.clock == e.now
    requires p.status.Ready? && RegistrationRefusal(g, e, c, id, p).None? && g.committed + p.amount <= I128_MAX
    ensures var g' := AddPayable(g, e, c, id, p, signatures);
            Solvent(g') && Configured(g') && Conserved(g') && Dated(g')
  {
    SumPut(g.payables, id, p);
  }

  lemma AddPayableKeepsInv(crypto: Crypto, g: Gate, e: Env, c: Config, id: Bytes32, p: Payable,
                           signatures: seq<IssuerSignature>)
    requires Inv(crypto, g) && Sane(g) && g.config == Some(c) && g.clock == e.now
    requires p.status.Ready? && RegistrationRefusal(g, e, c, id, p).None? && g.committed + p.amount <= I128_MAX
    requires GrantHolds(crypto, g.self, c, id, p, Grant(c.networkId, c.asset, c.issuers, c.threshold, signatures))
    ensures Inv(crypto, AddPayable(g, e, c, id, p, signatures))
  {
    var x := LoggedEvent(e.tx, e.ledger, PayableRegistered(id, p.proofHash));
    var y := LoggedEvent(e.tx, e.ledger, PayableReady(id, p.recipient, p.amount, p.expiry));
    var g' := AddPayable(g, e, c, id, p, signatures);
    forall concern ensures Holds(concern, crypto, g') {
      assert Holds(concern, crypto, g);
      match concern
      case Funds => AddPayableKeepsFunds(g, e, c, id, p, signatures);
      case Log => AddPayableKeepsLog(g.payables, g.history, x, y, id, p);
      case Payments => NewReadyKeepsPayments(g.payables, g.history.payments, g.history.paid, id, p);
      case Grants =>
        NewGrant(crypto, g.self, g.config, g.payables, g.history.grants, id, p,
                 Grant(c.networkId, c.asset, c.issuers, c.threshold, signatures));
      case Spending =>
    }
  }

  lemma NewReadyKeepsPayments(payables: map<Bytes32, Payable>, payments: seq<Payment>, paid: map<Bytes32, nat>,
                              id: Bytes32, p: Payable)
    requires PaidOnce(payables, payments, paid) && id !in payables && p.status.Ready?
    ensures PaidOnce(payables[id := p], payments, paid)
  {
  }

  // ------------------------------------------------------------ entry points

  lemma ClockKeepsInv(crypto: Crypto, g: Gate, now: u64)
    requires Inv(crypto, g) && g.clock <= now
    ensures Inv(crypto, g.(clock := now))
  {
    forall concern ensures Holds(concern, crypto, g.(clock := now)) {
      assert Holds(concern, crypto, g);
    }
  }

  lemma RegisterKeepsInv(crypto: Crypto, g: Gate, g': Gate, e: Env, id: Bytes32, p: Payable,
                         signatures: seq<IssuerSignature>)
    requires Inv(crypto, g) && Sane(g) && g.clock == e.now && p.status.Ready?
    requires Register(crypto, g, e, id, p, signatures) == Done(g')
    ensures Inv(crypto, g')
  {
    var c := g.config.value;
    var fields := Fields(g, c, id, p).value;
    assert Holds(Funds, crypto, g);
    SignatureCheckMeaning(crypto, c.issuers, c.threshold, RegistrationDigest(crypto.sha, fields), signatures);
    AddPayableKeepsInv(crypto, g, e, c, id, p, signatures);
  }

  lemma SettleKeepsInv(crypto: Crypto, g: Gate, g': Gate, e: Env, id: Bytes32)
    requires Inv(crypto, g) && Sane(g) && g.clock == e.now && Settle(g, e, id) == Done(g')
    ensures Inv(crypto, g')
  {
    PayKeepsInv(crypto, g, e, g.config.value, id);
  }

  lemma {:induction false} ExpireBatchKeepsInv(crypto: Crypto, g: Gate, e: Env, ids: seq<Bytes32>)
    requires Inv(crypto, g) && Sane(g)
    ensures Inv(crypto, ExpireBatch(g, e, ids).0)
  {
    if ids != [] {
      var rest, id := ids[..|ids| - 1], ids[|ids| - 1];
      ExpireBatchKeepsInv(crypto, g, e, rest);
      var before := ExpireBatch(g, e, rest).0;
      if Lapsed(before, e.now, id) {
        CloseKeepsInv(crypto, before, e, id, Expired, PayableExpired(id, before.payables[id].expiry));
      }
    }
  }

  lemma WithdrawKeepsInv(crypto: Crypto, g: Gate, g': Gate, e: Env, amount: i128)
    requires Inv(crypto, g) && Withdraw(g, e, amount) == Done(g')
    ensures Inv(crypto, g')
  {
    forall concern ensures Holds(concern, crypto, g') {
      assert Holds(concern, crypto, g);
      match concern
      case Funds => WithdrawKeepsFunds(g, e, amount);
      case Log => NeutralEventKeepsLog(g.payables, g.history, e, VaultWithdrawn(g.config.value.treasury, amount));
      case _ =>
    }
  }

  lemma WithdrawKeepsFunds(g: Gate, e: Env, amount: i128)
    requires Solvent(g) && Configured(g) && Conserved(g) && Dated(g) && Withdraw(g, e, amount).Done?
    ensures var g' := Withdraw(g, e, amount).gate; Solvent(g') && Configured(g') && Conserved(g') && Dated(g')
  {
    var c := g.config.value;
    SumBounds(g.payables, g.payables.Keys);
    MoveBalances(g.balances, c.payer, c.treasury, amount, g.self);
    WithdrawnAppend(g.history.withdrawals, Withdrawal(c.treasury, amount), g.self);
  }

  /** Setters never touch what a grant or the vault's identity depends on. */
  lemma ConfigureKeepsInv(crypto: Crypto, g: Gate, g': Gate, e: Env, s: Setting)
    requires Inv(crypto, g) && Configure(g, e, s) == Done(g')
    ensures Inv(crypto, g')
  {
    var c, c' := g.config.value, Apply(g.config.value, s);
    forall concern ensures Holds(concern, crypto, g') {
      assert Holds(concern, crypto, g);
      match concern
      case Log =>
        if s.Admin? {
          NeutralEventKeepsLog(g.payables, g.history, e, AdminChanged(s.newAdmin));
        } else if s.Treasury? {
          NeutralEventKeepsLog(g.payables, g.history, e, TreasuryChanged(s.newTreasury));
        }
      case Grants => GrantsSurviveSettings(crypto, g.self, c, c', g.payables, g.history.grants);
      case _ =>
    }
  }

  lemma GrantsSurviveSettings(crypto: Crypto, self: Address, c: Config, c': Config, payables: map<Bytes32, Payable>,
                              grants: map<Bytes32, Grant>)
    requires Granted(crypto, self, Some(c), payables, grants) && c.networkId == c'.networkId && c.asset == c'.asset
    ensures Granted(crypto, self, Some(c'), payables, grants)
  {
    forall id | id in payables ensures GrantHolds(crypto, self, c', id, payables[id], grants[id]) {
      assert GrantHolds(crypto, self, c, id, payables[id], grants[id]);
    }
  }

  lemma InitializeKeepsInv(crypto: Crypto, g: Gate, g': Gate, e: Env, c: Config, holdings: map<Address, nat>)
    requires Inv(crypto, g) && Initialize(g, e, c, holdings) == Done(g')
    ensures Inv(crypto, g')
  {
    assert Holds(Funds, crypto, g);
    forall concern ensures Holds(concern, crypto, g') {
      assert Holds(concern, crypto, g);
    }
  }

  lemma OutsideKeepsInv(crypto: Crypto, g: Gate, balances: map<Address, nat>)
    requires Inv(crypto, g) && (if g.self in balances then balances[g.self] else 0) >= Balance(g, g.self)
    ensures Inv(crypto, Outside(g, balances))
  {
    forall concern ensures Holds(concern, crypto, Outside(g, balances)) {
      assert Holds(concern, crypto, g);
    }
  }

  lemma AttestKeepsInv(crypto: Crypto, g: Gate, g': Gate, e: Env, id: Bytes32, reason: Octets, phase: Phase,
                       sequence: u64, signatures: seq<IssuerSignature>)
    requires Inv(crypto, g) && Attest(crypto, g, e, id, reason, phase, sequence, signatures) == Done(g')
    ensures Inv(crypto, g')
  {
    forall concern ensures Holds(concern, crypto, g') {
      assert Holds(concern, crypto, g);
      match concern
      case Log => NeutralEventKeepsLog(g.payables, g.history, e, Testimony(phase, id, reason, sequence));
      case _ =>
    }
  }

  /** No call, however it is made, breaks any of the invariants. */
  lemma InvokeKeepsInv(crypto: Crypto, g: Gate, g': Gate, e: Env, call: Call)
    requires Inv(crypto, g) && Sane(g) && Callable(call) && g.clock <= e.now && Invoke(crypto, g, e, call) == Done(g')
    ensures Inv(crypto, g')
  {
    var at := g.(clock := e.now);
    ClockKeepsInv(crypto, g, e.now);
    match call {
      case CallInitialize(config, holdings) => InitializeKeepsInv(crypto, at, g', e, config, holdings);
      case CallRegister(id, payable, signatures) => RegisterKeepsInv(crypto, at, g', e, id, payable, signatures);
      case CallSettle(id) => SettleKeepsInv(crypto, at, g', e, id);
      case CallExpire(id) => CloseKeepsInv(crypto, at, e, id, Expired, PayableExpired(id, at.payables[id].expiry));
      case CallExpireBatch(ids) => ExpireBatchKeepsInv(crypto, at, e, ids);
      case CallRevoke(id, reason, signatures) => CloseKeepsInv(crypto, at, e, id, Revoked, PayableRevoked(id, reason));
      case CallWithdraw(amount) => WithdrawKeepsInv(crypto, at, g', e, amount);
      case CallAttest(id, reason, phase, sequence, signatures) =>
        AttestKeepsInv(crypto, at, g', e, id, reason, phase, sequence, signatures);
      case CallConfigure(setting) => ConfigureKeepsInv(crypto, at, g', e, setting);
    }
  }
}
