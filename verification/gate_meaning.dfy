/** What each call of the contract needs, what it answers otherwise, and what it leaves behind, written out in the
    contract's stored values. */
module GateMeaning {
  import opened Primitives
  import opened Digest
  import opened GateSpec
  import opened GateInvariants
  import opened GateTheorems

  /** What keeps a call from going through, if anything does. */
  predicate Follows(obstacle: Option<Outcome>, outcome: Outcome) {
    match obstacle
    case Some(answer) => outcome == answer
    case None => outcome.Done?
  }

  /** The 32 bytes of an address that has them. */
  function Raw(a: Address): Bytes32
    requires !a.Unsupported?
  {
    if a.Account? then a.key else a.id
  }

  function Entry(e: Env, event: Event): LoggedEvent {
    LoggedEvent(e.tx, e.ledger, event)
  }

  // ------------------------------------------------------------- registering

  /** The digest the issuers must have signed, from the call's arguments and the stored configuration. */
  function TermsDigest(crypto: Crypto, g: Gate, c: Config, id: Bytes32, p: Payable): Bytes32
    requires !g.self.Unsupported? && !p.recipient.Unsupported? && !c.asset.Unsupported?
  {
    RegistrationDigest(crypto.sha,
                       RegistrationFields(c.networkId, Raw(g.self), id, p.proofHash, Raw(p.recipient), Raw(c.asset),
                                          p.amount, p.policyHash, p.expiry))
  }

  /** Exactly what registering takes. */
  ghost predicate MayRegister(crypto: Crypto, g: Gate, e: Env, id: Bytes32, p: Payable,
                              signatures: seq<IssuerSignature>) {
    g.config.Some?
    && var c := g.config.value;
       !c.paused && id !in g.payables
       && 0 < p.amount <= c.maxPerPayable
       && e.now < p.expiry <= e.now + 604800
       && (c.payer == g.self ==> p.amount <= Balance(g, g.self) - ReadySum(g.payables))
       && !g.self.Unsupported? && !p.recipient.Unsupported? && !c.asset.Unsupported?
       && Authorized(crypto, c.issuers, c.threshold, TermsDigest(crypto, g, c, id, p), signatures)
       && ReadySum(g.payables) + p.amount <= I128_MAX
  }

  /** The first obstacle in the stored state, in the order the contract looks for them. */
  ghost function StateObstacle(g: Gate, e: Env, c: Config, id: Bytes32, p: Payable): Option<Outcome> {
    if c.paused then Some(Refused(Paused))
    else if id in g.payables then Some(Refused(PayableAlreadyExists))
    else if p.amount <= 0 then Some(Refused(AmountNotPositive))
    else if p.amount > c.maxPerPayable then Some(Refused(AmountAboveCap))
    else if p.expiry <= e.now then Some(Refused(InvalidExpiry))
    else if p.expiry > e.now + 604800 then Some(Refused(ProofWindowTooLong))
    else if c.payer == g.self && p.amount > Balance(g, g.self) - ReadySum(g.payables)
    then Some(Refused(InsufficientAvailable))
    else None
  }

  /** A registration goes through exactly when it may. */
  lemma RegisterExactly(crypto: Crypto, g: Gate, e: Env, id: Bytes32, p: Payable, signatures: seq<IssuerSignature>)
    requires Inv(crypto, g) && p.status.Ready?
    ensures Register(crypto, g, e, id, p, signatures).Done? <==> MayRegister(crypto, g, e, id, p, signatures)
  {
    assert Holds(Funds, crypto, g);
    SumBounds(g.payables, g.payables.Keys);
    if g.config.Some? && Fields(g, g.config.value, id, p).Some? {
      SignatureCheckMeaning(crypto, g.config.value.issuers, g.config.value.threshold,
                            RegistrationDigest(crypto.sha, Fields(g, g.config.value, id, p).value), signatures);
    }
  }

  /** It then changes these three parts of the gate and no other. */
  lemma RegisterLeaves(crypto: Crypto, g: Gate, e: Env, id: Bytes32, p: Payable, signatures: seq<IssuerSignature>)
    requires Inv(crypto, g) && p.status.Ready?
    ensures Register(crypto, g, e, id, p, signatures).Done? ==>
              var g' := Register(crypto, g, e, id, p, signatures).gate;
              g' == g.(payables := g.payables[id := p], committed := g'.committed, history := g'.history)
              && g'.committed == ReadySum(g.payables) + p.amount
              && g'.history.log == g.history.log + [Entry(e, PayableRegistered(id, p.proofHash)),
                                                    Entry(e, PayableReady(id, p.recipient, p.amount, p.expiry))]
  {
    assert Holds(Funds, crypto, g);
  }

  /** Otherwise the first obstacle in the state answers; past those, an address without bytes traps, then the
      signatures decide, then a total out of range traps. */
  lemma RegisterRefuses(crypto: Crypto, g: Gate, e: Env, id: Bytes32, p: Payable, signatures: seq<IssuerSignature>)
    requires Inv(crypto, g) && p.status.Ready?
    ensures var r := Register(crypto, g, e, id, p, signatures);
            if g.config.None? then r == Refused(NotInitialized)
            else
              var c := g.config.value;
              match StateObstacle(g, e, c, id, p)
              case Some(answer) => r == answer
              case None =>
                if g.self.Unsupported? || p.recipient.Unsupported? || c.asset.Unsupported? then r == Trapped
                else
                  match CheckSignatures(crypto, c.issuers, c.threshold, TermsDigest(crypto, g, c, id, p), signatures)
                  case Rejected(error) => r == Refused(error)
                  case BadSignature => r == Trapped
                  case Accepted => r.Done? || (r == Trapped && ReadySum(g.payables) + p.amount > I128_MAX)
  {
    assert Holds(Funds, crypto, g);
    SumBounds(g.payables, g.payables.Keys);
  }

  /** A signature's fault, seen from the ones before it. */
  ghost predicate Faulty(crypto: Crypto, issuers: seq<Bytes32>, digest: Bytes32, signatures: seq<IssuerSignature>,
                         i: nat)
    requires i < |signatures|
  {
    signatures[i].issuer !in issuers || (exists j :: 0 <= j < i && signatures[j].issuer == signatures[i].issuer)
    || !crypto.verifies(signatures[i].issuer, digest, signatures[i].signature)
  }

  /** Too few signatures are refused before any is looked at; then the first faulty one is answered for what is wrong
      with it: its issuer is not listed, or has signed already, or, a trap, it does not verify. */
  lemma {:induction false} FirstFaultAnswers(crypto: Crypto, issuers: seq<Bytes32>, threshold: nat, digest: Bytes32,
                                             signatures: seq<IssuerSignature>, i: nat)
    requires i < |signatures| && Faulty(crypto, issuers, digest, signatures, i)
    requires forall j: nat :: j < i ==> !Faulty(crypto, issuers, digest, signatures, j)
    ensures var v := CheckSignatures(crypto, issuers, threshold, digest, signatures);
            if |signatures| < threshold then v == Rejected(ThresholdNotMet)
            else if signatures[i].issuer !in issuers then v == Rejected(UnknownIssuer)
            else if exists j :: 0 <= j < i && signatures[j].issuer == signatures[i].issuer
                 then v == Rejected(DuplicateIssuer)
            else v == BadSignature
  {
    FaultFrom(crypto, issuers, digest, signatures, 0, i);
  }

  lemma {:induction false} FaultFrom(crypto: Crypto, issuers: seq<Bytes32>, digest: Bytes32,
                                     signatures: seq<IssuerSignature>, k: nat, i: nat)
    requires k <= i < |signatures| && Faulty(crypto, issuers, digest, signatures, i)
    requires forall j: nat :: j < i ==> !Faulty(crypto, issuers, digest, signatures, j)
    ensures CheckFrom(crypto, issuers, digest, signatures, k)
            == if signatures[i].issuer !in issuers then Rejected(UnknownIssuer)
               else if exists j :: 0 <= j < i && signatures[j].issuer == signatures[i].issuer
                    then Rejected(DuplicateIssuer)
               else BadSignature
    decreases i - k
  {
    if signatures[k].issuer in Issuers(signatures[..k]) {
      var j :| 0 <= j < k && Issuers(signatures[..k])[j] == signatures[k].issuer;
      assert signatures[j].issuer == signatures[k].issuer;
    }
    if j :| 0 <= j < k && signatures[j].issuer == signatures[k].issuer {
      assert Issuers(signatures[..k])[j] == signatures[k].issuer;
    }
    if k < i {
      assert !Faulty(crypto, issuers, digest, signatures, k);
      FaultFrom(crypto, issuers, digest, signatures, k + 1, i);
    }
  }

  // ---------------------------------------------------------------- settling

  /** A window that is none, or as old as the configured length, gives way to a new one. */
  predicate Expires(g: Gate, now: u64, c: Config) {
    g.window.None? || now >= g.window.value.startedAt + c.windowSeconds
  }

  function SpentWith(g: Gate, now: u64, c: Config, amount: int): int {
    if Expires(g, now, c) then amount else g.window.value.spent + amount
  }

  ghost function SettleObstacle(g: Gate, e: Env, id: Bytes32): Option<Outcome> {
    if g.config.None? then Some(Refused(NotInitialized))
    else
      var c := g.config.value;
      if c.paused then Some(Refused(Paused))
      else if c.executor !in e.auth then Some(Trapped)
      else if id !in g.payables then Some(Refused(PayableNotFound))
      else
        var p := g.payables[id];
        if p.status != Ready then Some(Refused(NotReady))
        else if p.expiry < e.now then Some(Refused(ProofExpired))
        else if SpentWith(g, e.now, c, p.amount) > I128_MAX then Some(Trapped)
        else if SpentWith(g, e.now, c, p.amount) > c.maxPerWindow then Some(Refused(WindowCapExceeded))
        else if (c.payer != g.self && c.payer !in e.auth) || Balance(g, c.payer) < p.amount || !e.tokenAccepts
        then Some(Trapped)
        else None
  }

  /** Settling pays exactly when nothing of this stands in its way; the first thing that does answers. */
  lemma SettleExactly(crypto: Crypto, g: Gate, e: Env, id: Bytes32)
    requires Inv(crypto, g) && Sane(g) && g.clock == e.now
    ensures Follows(SettleObstacle(g, e, id), Settle(g, e, id))
  {
    assert Holds(Funds, crypto, g) && Holds(Spending, crypto, g);
    WindowReading(crypto, g);
  }

  /** What a settlement leaves: the payer's money with the recipient, the payable SETTLED and no longer committed,
      the amount charged to its window, one event, and nothing else. */
  lemma SettleLeaves(crypto: Crypto, g: Gate, e: Env, id: Bytes32)
    requires Inv(crypto, g) && Sane(g) && g.clock == e.now && Settle(g, e, id).Done?
    ensures g.config.Some? && id in g.payables
    ensures var g', c, p := Settle(g, e, id).gate, g.config.value, g.payables[id];
            var start := if Expires(g, e.now, c) then e.now else g.window.value.startedAt;
            g' == g.(payables := g.payables[id := p.(status := Settled)], committed := g'.committed,
                     window := g'.window,
                     balances := g'.balances, history := g'.history)
            && g'.committed == g.committed - p.amount
            && g'.window.Some? && g'.window.value.startedAt == start
            && g'.window.value.spent == SpentWith(g, e.now, c, p.amount)
            && (forall who :: Balance(g', who) == Balance(g, who) - (if who == c.payer then p.amount else 0)
                                                  + (if who == p.recipient then p.amount else 0))
            && g'.history.log == g.history.log + [Entry(e, SettlementExecuted(id, p.recipient, p.amount, p.proofHash))]
  {
    assert Holds(Funds, crypto, g) && Holds(Spending, crypto, g);
    WindowReading(crypto, g);
    SumBounds(g.payables, g.payables.Keys);
    var g', c, p := Settle(g, e, id).gate, g.config.value, g.payables[id];
    assert Owed(p) <= g.committed;
    forall who ensures Balance(g', who) == Balance(g, who) - (if who == c.payer then p.amount else 0)
                                           + (if who == p.recipient then p.amount else 0) {
      MoveBalances(g.balances, c.payer, p.recipient, p.amount, who);
    }
  }

  // ------------------------------------------------------ expiring, revoking

  /** A payable that is closed without being paid: its status, its commitment, one event, and nothing else. */
  ghost predicate Frees(g: Gate, g': Gate, e: Env, id: Bytes32, status: Status, event: Event) {
    id in g.payables
    && g' == g.(payables := g.payables[id := g.payables[id].(status := status)], committed := g'.committed,
                history := g'.history)
    && g'.committed == g.committed - g.payables[id].amount
    && g'.history.log == g.history.log + [Entry(e, event)]
  }

  function ExpireObstacle(g: Gate, e: Env, id: Bytes32): Option<Outcome> {
    if id !in g.payables then Some(Refused(PayableNotFound))
    else if g.payables[id].status != Ready then Some(Refused(NotReady))
    else if g.payables[id].expiry >= e.now then Some(Refused(ProofNotExpired))
    else None
  }

  lemma ExpireExactly(crypto: Crypto, g: Gate, e: Env, id: Bytes32)
    requires Inv(crypto, g) && Sane(g)
    ensures Follows(ExpireObstacle(g, e, id), Expire(g, e, id))
    ensures Expire(g, e, id).Done? ==>
              id in g.payables
                && Frees(g, Expire(g, e, id).gate, e, id, Expired, PayableExpired(id, g.payables[id].expiry))
  {
    assert Holds(Funds, crypto, g);
    SumBounds(g.payables, g.payables.Keys);
    assert id in g.payables ==> Owed(g.payables[id]) <= g.committed;
  }

  function RevokeObstacle(g: Gate, id: Bytes32): Option<Outcome> {
    if g.config.None? then Some(Refused(NotInitialized))
    else if id !in g.payables then Some(Refused(PayableNotFound))
    else if g.payables[id].status != Ready then Some(Refused(NotReady))
    else if g.self.Unsupported? then Some(Trapped)
    else None
  }

  /** The digest of a revocation: this network, gate and id, the proof hash registered under it, and the reason. */
  function ReasonDigest(crypto: Crypto, g: Gate, c: Config, id: Bytes32, reason: Octets): Bytes32
    requires !g.self.Unsupported? && id in g.payables
  {
    RevocationDigest(crypto.sha,
                     RevocationFields(c.networkId, Raw(g.self), id, g.payables[id].proofHash, crypto.sha(reason)))
  }

  /** A revocation goes through exactly when the issuers in force signed it for a READY payable, paused or not. */
  lemma RevokeExactly(crypto: Crypto, g: Gate, e: Env, id: Bytes32, reason: Octets, signatures: seq<IssuerSignature>)
    requires Inv(crypto, g) && Sane(g)
    ensures var r := Revoke(crypto, g, e, id, reason, signatures);
            match RevokeObstacle(g, id)
            case Some(answer) => r == answer
            case None =>
              var c, digest := g.config.value, ReasonDigest(crypto, g, g.config.value, id, reason);
              (r.Done? <==> Authorized(crypto, c.issuers, c.threshold, digest, signatures))
              && (r.Done? ==> Frees(g, r.gate, e, id, Revoked, PayableRevoked(id, reason)))
              && (r.Refused? ==>
                  CheckSignatures(crypto, c.issuers, c.threshold, digest, signatures) == Rejected(r.error))
  {
    assert Holds(Funds, crypto, g);
    SumBounds(g.payables, g.payables.Keys);
    assert id in g.payables ==> Owed(g.payables[id]) <= g.committed;
    if g.config.Some? && id in g.payables && !g.self.Unsupported? {
      SignatureCheckMeaning(crypto, g.config.value.issuers, g.config.value.threshold,
                            ReasonDigest(crypto, g, g.config.value, id, reason), signatures);
    }
  }

  // ------------------------------------------------------------- withdrawing

  ghost function WithdrawObstacle(g: Gate, e: Env, amount: i128): Option<Outcome> {
    if g.config.None? then Some(Refused(NotInitialized))
    else
      var c := g.config.value;
      if c.admin !in e.auth then Some(Trapped)
      else if c.payer != g.self then Some(Refused(NotAVault))
      else if amount <= 0 then Some(Refused(AmountNotPositive))
      else if amount > Balance(g, g.self) - ReadySum(g.payables) then Some(Refused(WithdrawExceedsAvailable))
      else if !e.tokenAccepts then Some(Trapped)
      else None
  }

  /** A withdrawal takes the admin and money promised to nobody; it moves just that money to the treasury. */
  lemma WithdrawExactly(crypto: Crypto, g: Gate, e: Env, amount: i128)
    requires Inv(crypto, g)
    ensures Follows(WithdrawObstacle(g, e, amount), Withdraw(g, e, amount))
    ensures Withdraw(g, e, amount).Done? ==>
              g.config.Some? &&
              var g', c := Withdraw(g, e, amount).gate, g.config.value;
              g' == g.(balances := g'.balances, history := g'.history)
              && (forall who :: Balance(g', who) == Balance(g, who) - (if who == g.self then amount else 0)
                                                    + (if who == c.treasury then amount else 0))
              && g'.history.log == g.history.log + [Entry(e, VaultWithdrawn(c.treasury, amount))]
  {
    assert Holds(Funds, crypto, g);
    SumBounds(g.payables, g.payables.Keys);
    if Withdraw(g, e, amount).Done? {
      var g', c := Withdraw(g, e, amount).gate, g.config.value;
      forall who ensures Balance(g', who) == Balance(g, who) - (if who == g.self then amount else 0)
                                             + (if who == c.treasury then amount else 0) {
        MoveBalances(g.balances, g.self, c.treasury, amount, who);
      }
    }
  }

  // --------------------------------------------------- testimony and settings

  /** Phases are numbered from zero in the order a payable meets them. */
  function Numbered(phase: Phase): bv8 {
    if phase == BlockedPhase then 0 else if phase == ResolvedPhase then 1 else 2
  }

  function StatementDigest(crypto: Crypto, g: Gate, c: Config, id: Bytes32, reason: Octets, phase: Phase,
                           sequence: u64): Bytes32
    requires !g.self.Unsupported?
  {
    AttestationDigest(crypto.sha,
                      AttestationFields(c.networkId, Raw(g.self), id, Numbered(phase), crypto.sha(reason), sequence))
  }

  /** A statement about a payable, known here or not, is logged exactly when the issuers in force signed it. */
  lemma AttestExactly(crypto: Crypto, g: Gate, e: Env, id: Bytes32, reason: Octets, phase: Phase, sequence: u64,
                      signatures: seq<IssuerSignature>)
    ensures var r := Attest(crypto, g, e, id, reason, phase, sequence, signatures);
            (g.config.None? ==> r == Refused(NotInitialized))
            && (g.config.Some? && phase == OtherPhase ==> r == Refused(UnknownPhase))
            && (r.Done? <==> g.config.Some? && phase != OtherPhase && !g.self.Unsupported?
                             && Authorized(crypto, g.config.value.issuers, g.config.value.threshold,
                                           StatementDigest(crypto, g, g.config.value, id, reason, phase, sequence),
                                           signatures))
            && (r.Done? ==>
                  r.gate == g.(history := g.history.(log := r.gate.history.log))
                  && r.gate.history.log
                     == g.history.log + [Entry(e, match phase
                                                  case BlockedPhase => PayableBlocked(id, reason, sequence)
                                                  case ResolvedPhase => ExceptionResolved(id, reason, sequence)
                                                  case _ => PayableReconciled(id, reason, sequence))])
  {
    if g.config.Some? && !g.self.Unsupported? {
      SignatureCheckMeaning(crypto, g.config.value.issuers, g.config.value.threshold,
                            StatementDigest(crypto, g, g.config.value, id, reason, phase, sequence), signatures);
    }
  }

  function InitializeObstacle(g: Gate, e: Env, c: Config): Option<Outcome> {
    if g.config.Some? then Some(Refused(AlreadyInitialized))
    else if c.threshold == 0 || c.threshold > |c.issuers| then Some(Refused(InvalidThreshold))
    else if c.maxPerPayable <= 0 || c.windowSeconds == 0 || c.maxPerWindow <= 0 then Some(Refused(InvalidLimits))
    else if c.admin !in e.auth then Some(Trapped)
    else None
  }

  lemma InitializeExactly(g: Gate, e: Env, c: Config, holdings: map<Address, nat>)
    ensures Follows(InitializeObstacle(g, e, c), Initialize(g, e, c, holdings))
    ensures Initialize(g, e, c, holdings).Done? ==>
              var g' := Initialize(g, e, c, holdings).gate;
              g' == g.(config := Some(c.(paused := false)), balances := holdings, history := g'.history)
              && g'.history.log == g.history.log
  {
  }

  function ConfigureObstacle(g: Gate, e: Env, s: Setting): Option<Outcome> {
    if g.config.None? then Some(Refused(NotInitialized))
    else if g.config.value.admin !in e.auth || (s.Admin? && s.newAdmin !in e.auth)
            || (s.Treasury? && g.config.value.treasury !in e.auth)
    then Some(Trapped)
    else if s.ProofIssuers? && (s.threshold == 0 || s.threshold > |s.issuers|) then Some(Refused(InvalidThreshold))
    else if s.Limits? && (s.maxPerPayable <= 0 || s.windowSeconds == 0 || s.maxPerWindow <= 0)
    then Some(Refused(InvalidLimits))
    else None
  }

  /** A setter puts its arguments where they belong, logs a change of admin or treasury, and touches nothing else. */
  lemma ConfigureExactly(g: Gate, e: Env, s: Setting)
    ensures Follows(ConfigureObstacle(g, e, s), Configure(g, e, s))
    ensures Configure(g, e, s).Done? ==>
              g.config.Some? &&
              var g', c, log := Configure(g, e, s).gate, g.config.value, g.history.log;
              g'.config.Some?
              && g' == g.(config := g'.config, history := g.history.(log := g'.history.log))
              && var c' := g'.config.value;
                 (s.Admin? ==> c' == c.(admin := s.newAdmin)
                               && g'.history.log == log + [Entry(e, AdminChanged(s.newAdmin))])
                 && (s.Treasury? ==> c' == c.(treasury := s.newTreasury)
                                     && g'.history.log == log + [Entry(e, TreasuryChanged(s.newTreasury))])
                 && (s.Pause? ==> c' == c.(paused := s.paused) && g'.history.log == log)
                 && (s.ProofIssuers? ==>
                     c' == c.(issuers := s.issuers, threshold := s.threshold) && g'.history.log == log)
                 && (s.Limits? ==> c' == c.(maxPerPayable := s.maxPerPayable, windowSeconds := s.windowSeconds,
                                            maxPerWindow := s.maxPerWindow) && g'.history.log == log)
                 && (s.Executor? ==> c' == c.(executor := s.executor) && g'.history.log == log)
  {
  }
}
