/** The contract itself: entry points that read and overwrite storage, step by step. */
module GateContract {
  import opened Primitives
  import opened Digest
  import opened GateSpec
  import opened GateInvariants

  datatype Reply = Returned(count: nat) | Failed(error: Error) | Trap

  /** The host keeps a call's writes when it returns and undoes them all when it errs or traps. */
  ghost predicate Answers(before: Gate, after: Gate, outcome: Outcome, reply: Reply) {
    match outcome
    case Done(g) => after == g && reply.Returned?
    case Refused(error) => after == before && reply == Failed(error)
    case Trapped => after == before && reply == Trap
  }

  class PayableGate {
    const self: Address
    const crypto: Crypto
    var config: Option<Config>
    var payables: map<Bytes32, Payable>
    var committed: i128
    var window: Option<SpendWindow>
    /** The configured asset's ledger, which `transfer` rewrites. */
    var balances: map<Address, nat>
    var log: seq<LoggedEvent>
    ghost var clock: u64
    ghost var past: History

    ghost function State(): Gate
      reads this
    {
      Gate(self, config, payables, committed, window, balances, clock, past.(log := log))
    }

    ghost function At(now: u64): Gate
      reads this
    {
      State().(clock := now)
    }

    ghost predicate Valid()
      reads this
    {
      Inv(crypto, State())
    }

    constructor (self: Address, crypto: Crypto)
      ensures State() == NewGate(self) && this.crypto == crypto && this.self == self
    {
      this.self, this.crypto := self, crypto;
      config, payables, committed, window, balances, log := None, map[], 0, None, map[], [];
      clock, past := 0, NewGate(self).history;
    }

    // ------------------------------------------------------------- internals

    method Publish(e: Env, event: Event)
      modifies this`log
      ensures log == old(log) + [LoggedEvent(e.tx, e.ledger, event)]
    {
      log := log + [LoggedEvent(e.tx, e.ledger, event)];
    }

    method Release(amount: i128)
      requires committed >= 0 && amount >= 0
      modifies this`committed
      ensures committed == Released(old(committed), amount)
    {
      var remaining := committed - amount;
      committed := if remaining > 0 then remaining else 0;
    }

    method CurrentlyAvailable(c: Config) returns (free: int)
      ensures free == Available(State(), c)
    {
      var balance := if c.payer in balances then balances[c.payer] else 0;
      free := balance - committed;
      if free <= 0 {
        free := 0;
      }
    }

    /** Every signature is looked at, in order; the first fault decides. */
    method VerifyIssuerSignatures(c: Config, digest: Bytes32, signatures: seq<IssuerSignature>) returns (v: Verdict)
      ensures v == CheckSignatures(crypto, c.issuers, c.threshold, digest, signatures)
      ensures v.Accepted? <==> Authorized(crypto, c.issuers, c.threshold, digest, signatures)
    {
      SignatureCheckMeaning(crypto, c.issuers, c.threshold, digest, signatures);
      if |signatures| < c.threshold {
        return Rejected(ThresholdNotMet);
      }
      var seen: seq<Bytes32> := [];
      for i := 0 to |signatures|
        invariant seen == Issuers(signatures[..i])
        invariant CheckFrom(crypto, c.issuers, digest, signatures, 0)
                  == CheckFrom(crypto, c.issuers, digest, signatures, i)
      {
        var entry := signatures[i];
        if entry.issuer !in c.issuers {
          return Rejected(UnknownIssuer);
        }
        if entry.issuer in seen {
          return Rejected(DuplicateIssuer);
        }
        seen := seen + [entry.issuer];
        if !crypto.verifies(entry.issuer, digest, entry.signature) {
          return BadSignature;
        }
      }
      return Accepted;
    }

    /** The window is overwritten only by a charge within the cap. */
    method Charge(c: Config, now: u64, amount: i128) returns (charge: Charge)
      modifies this`window
      ensures charge == old(ChargeWindow(State(), now, c, amount))
      ensures window == if charge.Charged? then Some(charge.window) else old(window)
    {
      var current := if window.Some? then window.value else SpendWindow(now, 0);
      var elapsed := if now >= current.startedAt then now - current.startedAt else 0;
      var reopened := elapsed >= c.windowSeconds;
      if reopened {
        current := SpendWindow(now, 0);
      }
      var spent := current.spent + amount;
      if spent > I128_MAX || spent < -I128_MAX - 1 {
        return Overflow;
      }
      if spent > c.maxPerWindow {
        return OverCap;
      }
      charge := Charged(SpendWindow(current.startedAt, spent), reopened || window.None?);
      window := Some(charge.window);
    }

    method ExpireReadyPayable(e: Env, id: Bytes32)
      requires Sane(State()) && id in payables
      modifies this
      ensures State() == old(ExpireReady(State(), e, id))
    {
      var p := payables[id];
      ghost var k := |log|;
      payables := payables[id := p.(status := Expired)];
      Release(p.amount);
      Publish(e, PayableExpired(id, p.expiry));
      past := past.(closed := past.closed[id := k]);
    }

    method RevokeReady(e: Env, id: Bytes32, reason: Octets)
      requires Sane(State()) && id in payables
      modifies this
      ensures old(Sane(At(e.now))) && State() == old(Close(At(e.now), e, id, Revoked, PayableRevoked(id, reason)))
    {
      var p := payables[id];
      ghost var k := |log|;
      payables := payables[id := p.(status := Revoked)];
      Release(p.amount);
      Publish(e, PayableRevoked(id, reason));
      clock, past := e.now, past.(closed := past.closed[id := k]);
    }

    /** Everything `register_payable` checks before the signatures, in its order. */
    method CheckRegistration(e: Env, c: Config, id: Bytes32, p: Payable) returns (refusal: Option<Error>)
      ensures refusal == RegistrationRefusal(State(), e, c, id, p)
    {
      if c.paused {
        return Some(Paused);
      }
      if id in payables {
        return Some(PayableAlreadyExists);
      }
      if p.amount <= 0 {
        return Some(AmountNotPositive);
      }
      if p.amount > c.maxPerPayable {
        return Some(AmountAboveCap);
      }
      if p.expiry <= e.now {
        return Some(InvalidExpiry);
      }
      if p.expiry - e.now > LONGEST_PROOF_WINDOW_SECONDS {
        return Some(ProofWindowTooLong);
      }
      var free := CurrentlyAvailable(c);
      if c.payer == self && p.amount > free {
        return Some(InsufficientAvailable);
      }
      return None;
    }

    /** Rebuilds the digest from the typed arguments and the configuration, and checks the signatures against it;
        an address without 32 bytes traps like a bad signature. */
    method CheckAuthority(c: Config, id: Bytes32, p: Payable, signatures: seq<IssuerSignature>) returns (v: Verdict)
      ensures v == match Fields(State(), c, id, p)
                   case None => BadSignature
                   case Some(fields) =>
                     CheckSignatures(crypto, c.issuers, c.threshold, RegistrationDigest(crypto.sha, fields), signatures)
    {
      var gateBytes, recipientBytes, assetBytes := AddressBytes(self), AddressBytes(p.recipient), AddressBytes(c.asset);
      if gateBytes.None? || recipientBytes.None? || assetBytes.None? {
        return BadSignature;
      }
      var fields := RegistrationFields(c.networkId, gateBytes.value, id, p.proofHash, recipientBytes.value,
                                       assetBytes.value, p.amount, p.policyHash, p.expiry);
      v := VerifyIssuerSignatures(c, RegistrationDigest(crypto.sha, fields), signatures);
    }

    /** The same for a revocation of a stored payable. */
    method CheckRevocation(c: Config, id: Bytes32, reason: Octets, signatures: seq<IssuerSignature>)
      returns (v: Verdict)
      requires id in payables
      ensures v == match Revocation(crypto, State(), c, id, reason)
                   case None => BadSignature
                   case Some(fields) =>
                     CheckSignatures(crypto, c.issuers, c.threshold, RevocationDigest(crypto.sha, fields), signatures)
    {
      var gateBytes := AddressBytes(self);
      if gateBytes.None? {
        return BadSignature;
      }
      var fields := RevocationFields(c.networkId, gateBytes.value, id, payables[id].proofHash, crypto.sha(reason));
      v := VerifyIssuerSignatures(c, RevocationDigest(crypto.sha, fields), signatures);
    }

    /** Stores the payable, commits its amount and announces it. */
    method Admit(e: Env, c: Config, id: Bytes32, p: Payable, signatures: seq<IssuerSignature>)
      requires p.status.Ready? && -I128_MAX - 1 <= committed + p.amount <= I128_MAX
      modifies this
      ensures State() == old(AddPayable(State(), e, c, id, p, signatures))
    {
      ghost var k := |log|;
      payables := payables[id := p];
      committed := committed + p.amount;
      Publish(e, PayableRegistered(id, p.proofHash));
      Publish(e, PayableReady(id, p.recipient, p.amount, p.expiry));
      past := past.(grants := past.grants[id := Grant(c.networkId, c.asset, c.issuers, c.threshold, signatures)],
                    readied := past.readied[id := k + 1], lastRegistration := e.now);
    }

    /** What registering comes to once the state allows it: signatures, then the running total. */
    ghost function Signed(e: Env, c: Config, id: Bytes32, p: Payable, signatures: seq<IssuerSignature>): Outcome
      reads this
      requires p.status.Ready?
    {
      match Fields(State(), c, id, p)
      case None => Trapped
      case Some(fields) =>
        match CheckSignatures(crypto, c.issuers, c.threshold, RegistrationDigest(crypto.sha, fields), signatures)
        case Rejected(error) => Refused(error)
        case BadSignature => Trapped
        case Accepted =>
          if -I128_MAX - 1 <= committed + p.amount <= I128_MAX then Done(AddPayable(At(e.now), e, c, id, p, signatures))
          else Trapped
    }

    /** An overflowing total traps after the signatures have been checked. */
    method AdmitSigned(e: Env, c: Config, id: Bytes32, p: Payable, signatures: seq<IssuerSignature>) returns (r: Reply)
      requires p.status.Ready? && committed >= 0 && p.amount > 0
      modifies this
      ensures Answers(old(State()), State(), old(Signed(e, c, id, p, signatures)), r)
    {
      var v := CheckAuthority(c, id, p, signatures);
      if v.Rejected? {
        return Failed(v.error);
      }
      if v.BadSignature? || committed + p.amount > I128_MAX {
        return Trap;
      }
      clock := e.now;
      Admit(e, c, id, p, signatures);
      return Returned(0);
    }

    method RegisterTerms(e: Env, id: Bytes32, p: Payable, signatures: seq<IssuerSignature>) returns (r: Reply)
      requires p.status.Ready? && committed >= 0
      modifies this
      ensures Answers(old(State()), State(), old(Register(crypto, At(e.now), e, id, p, signatures)), r)
    {
      if config.None? {
        return Failed(NotInitialized);
      }
      var c := config.value;
      var refusal := CheckRegistration(e, c, id, p);
      if refusal.Some? {
        return Failed(refusal.value);
      }
      r := AdmitSigned(e, c, id, p, signatures);
    }

    /** The transfer and what follows it, once the window has been charged. */
    method PayOut(e: Env, c: Config, id: Bytes32, ghost before: Option<SpendWindow>, ghost opens: bool)
      requires Sane(State()) && window.Some? && id in payables && 0 < payables[id].amount <= Balance(State(), c.payer)
      modifies this
      ensures old(Sane(State().(window := before)))
      ensures State() == old(Pay(State().(window := before), e, c, id, window.value, opens))
    {
      var p := payables[id];
      balances := Move(balances, c.payer, p.recipient, p.amount);
      ghost var k := |log|;
      payables := payables[id := p.(status := Settled)];
      Release(p.amount);
      Publish(e, SettlementExecuted(id, p.recipient, p.amount, p.proofHash));
      ghost var opening := if opens then |past.payments| else past.opening;
      past := past.(
        closed := past.closed[id := k],
        payments := past.payments
          + [Payment(id, p.recipient, p.amount, e.now, c.windowSeconds, c.maxPerWindow, opening, window.value.spent)],
        paid := past.paid[id := |past.payments|], opening := opening,
        received := past.received + if c.payer != self && p.recipient == self then p.amount else 0);
    }

    /** What settling comes to once the payable may be paid: charge, then transfer. */
    ghost function Disbursed(e: Env, c: Config, id: Bytes32): Outcome
      reads this
      requires Sane(State()) && id in payables
    {
      match ChargeWindow(State(), e.now, c, payables[id].amount)
      case Overflow => Trapped
      case OverCap => Refused(WindowCapExceeded)
      case Charged(w, opens) =>
        if TransferGoesThrough(State(), e, c.payer, payables[id].amount) then Done(Pay(At(e.now), e, c, id, w, opens))
        else Trapped
    }

    /** The window is charged first, so a transfer that traps has to undo the charge. */
    method Disburse(e: Env, c: Config, id: Bytes32) returns (r: Reply)
      requires Sane(State()) && id in payables
      modifies this
      ensures old(Sane(State())) && Answers(old(State()), State(), old(Disbursed(e, c, id)), r)
    {
      var amount := payables[id].amount;
      var saved := window;
      var charge := Charge(c, e.now, amount);
      if charge.Overflow? {
        return Trap;
      }
      if charge.OverCap? {
        return Failed(WindowCapExceeded);
      }
      var held := if c.payer in balances then balances[c.payer] else 0;
      if (c.payer != self && c.payer !in e.auth) || held < amount || !e.tokenAccepts {
        window := saved;
        return Trap;
      }
      clock := e.now;
      PayOut(e, c, id, saved, charge.opens);
      return Returned(0);
    }

    // ---------------------------------------------------------- entry points

    /** `holdings` is the asset's ledger when the configuration first names it. */
    method InitializeGate(e: Env, c: Config, holdings: map<Address, nat>) returns (r: Reply)
      requires Valid() && clock <= e.now && !c.paused
      modifies this
      ensures Answers(old(State()), State(), old(Initialize(At(e.now), e, c, holdings)), r)
      ensures Valid()
    {
      InvIsSane(crypto, State());
      if config.Some? {
        return Failed(AlreadyInitialized);
      }
      if c.threshold == 0 || c.threshold > |c.issuers| {
        return Failed(InvalidThreshold);
      }
      if c.maxPerPayable <= 0 || c.maxPerWindow <= 0 || c.windowSeconds == 0 {
        return Failed(InvalidLimits);
      }
      if c.admin !in e.auth {
        return Trap;
      }
      ghost var g := State();
      config, balances := Some(c), holdings;
      clock, past := e.now, past.(received := if self in holdings then holdings[self] else 0);
      InvokeKeepsInv(crypto, g, State(), e, CallInitialize(c, holdings));
      return Returned(0);
    }

    method RegisterPayable(e: Env, id: Bytes32, proofHash: Bytes32, recipient: Address, amount: i128,
                           policyHash: Bytes32, expiry: u64, signatures: seq<IssuerSignature>) returns (r: Reply)
      requires Valid() && clock <= e.now
      modifies this
      ensures var p := Payable(proofHash, recipient, amount, policyHash, expiry, Ready);
              Answers(old(State()), State(), old(Register(crypto, At(e.now), e, id, p, signatures)), r)
      ensures Valid()
    {
      InvIsSane(crypto, State());
      ghost var g := State();
      var p := Payable(proofHash, recipient, amount, policyHash, expiry, Ready);
      r := RegisterTerms(e, id, p, signatures);
      if r.Returned? {
        InvokeKeepsInv(crypto, g, State(), e, CallRegister(id, p, signatures));
      }
    }

    /** The caller names a payable and nothing else: who is paid, and how much, is what was registered. */
    method SettlePayable(e: Env, id: Bytes32) returns (r: Reply)
      requires Valid() && clock <= e.now
      modifies this
      ensures old(Sane(State())) && Answers(old(State()), State(), old(Settle(At(e.now), e, id)), r)
      ensures Valid()
    {
      InvIsSane(crypto, State());
      ghost var g := State();
      if config.None? {
        return Failed(NotInitialized);
      }
      var c := config.value;
      if c.paused {
        return Failed(Paused);
      }
      if c.executor !in e.auth {
        return Trap;
      }
      if id !in payables {
        return Failed(PayableNotFound);
      }
      var p := payables[id];
      if p.status != Ready {
        return Failed(NotReady);
      }
      if e.now > p.expiry {
        return Failed(ProofExpired);
      }
      r := Disburse(e, c, id);
      if r.Returned? {
        InvokeKeepsInv(crypto, g, State(), e, CallSettle(id));
      }
    }

    method ExpirePayable(e: Env, id: Bytes32) returns (r: Reply)
      requires Valid() && clock <= e.now
      modifies this
      ensures old(Sane(State())) && Answers(old(State()), State(), old(Expire(At(e.now), e, id)), r)
      ensures Valid()
    {
      InvIsSane(crypto, State());
      ghost var g := State();
      if id !in payables {
        return Failed(PayableNotFound);
      }
      if payables[id].status != Ready {
        return Failed(NotReady);
      }
      if e.now <= payables[id].expiry {
        return Failed(ProofNotExpired);
      }
      clock := e.now;
      ExpireReadyPayable(e, id);
      InvokeKeepsInv(crypto, g, State(), e, CallExpire(id));
      return Returned(0);
    }

    /** Skips whatever cannot be expired; counts what it did expire. */
    method ExpireMany(e: Env, ids: seq<Bytes32>) returns (r: Reply)
      requires Valid() && clock <= e.now
      modifies this
      ensures old(Sane(State())) && State() == old(ExpireBatch(At(e.now), e, ids).0)
              && r == Returned(old(ExpireBatch(At(e.now), e, ids).1))
      ensures Valid()
    {
      InvIsSane(crypto, State());
      ghost var g := State();
      clock := e.now;
      ghost var at := State();
      var expired := 0;
      for i := 0 to |ids|
        invariant (State(), expired) == ExpireBatch(at, e, ids[..i])
      {
        assert ids[..i + 1][..i] == ids[..i];
        if ids[i] !in payables {
          continue;
        }
        if payables[ids[i]].status == Ready && e.now > payables[ids[i]].expiry {
          ExpireReadyPayable(e, ids[i]);
          expired := expired + 1;
        }
      }
      assert ids[..|ids|] == ids;
      InvokeKeepsInv(crypto, g, State(), e, CallExpireBatch(ids));
      return Returned(expired);
    }

    /** Works while paused, and never on a settled payable. */
    method RevokePayable(e: Env, id: Bytes32, reason: Octets, signatures: seq<IssuerSignature>) returns (r: Reply)
      requires Valid() && clock <= e.now
      modifies this
      ensures old(Sane(State()))
              && Answers(old(State()), State(), old(Revoke(crypto, At(e.now), e, id, reason, signatures)), r)
      ensures Valid()
    {
      InvIsSane(crypto, State());
      ghost var g := State();
      if config.None? {
        return Failed(NotInitialized);
      }
      var c := config.value;
      if id !in payables {
        return Failed(PayableNotFound);
      }
      var p := payables[id];
      if p.status != Ready {
        return Failed(NotReady);
      }
      var v := CheckRevocation(c, id, reason, signatures);
      if v.Rejected? {
        return Failed(v.error);
      }
      if v.BadSignature? {
        return Trap;
      }
      RevokeReady(e, id, reason);
      InvokeKeepsInv(crypto, g, State(), e, CallRevoke(id, reason, signatures));
      return Returned(0);
    }

    method WithdrawFloat(e: Env, amount: i128) returns (r: Reply)
      requires Valid() && clock <= e.now
      modifies this
      ensures Answers(old(State()), State(), old(Withdraw(At(e.now), e, amount)), r)
      ensures Valid()
    {
      InvIsSane(crypto, State());
      ghost var g := State();
      if config.None? {
        return Failed(NotInitialized);
      }
      var c := config.value;
      var free := CurrentlyAvailable(c);
      if c.admin !in e.auth {
        return Trap;
      }
      if c.payer != self {
        return Failed(NotAVault);
      }
      if amount <= 0 {
        return Failed(AmountNotPositive);
      }
      if amount > free {
        return Failed(WithdrawExceedsAvailable);
      }
      var held := if c.payer in balances then balances[c.payer] else 0;
      if held < amount || !e.tokenAccepts {
        return Trap;
      }
      balances := Move(balances, c.payer, c.treasury, amount);
      Publish(e, VaultWithdrawn(c.treasury, amount));
      clock, past := e.now, past.(withdrawals := past.withdrawals + [Withdrawal(c.treasury, amount)]);
      assert Withdraw(g.(clock := e.now), e, amount) == Done(State());
      InvokeKeepsInv(crypto, g, State(), e, CallWithdraw(amount));
      return Returned(0);
    }

    /** Emits and nothing else: no payable changes. */
    method AttestLifecycle(e: Env, id: Bytes32, reason: Octets, phase: Phase, sequence: u64,
                           signatures: seq<IssuerSignature>) returns (r: Reply)
      requires Valid() && clock <= e.now
      modifies this
      ensures Answers(old(State()), State(),
                      old(Attest(crypto, At(e.now), e, id, reason, phase, sequence, signatures)), r)
      ensures Valid() && payables == old(payables) && balances == old(balances)
    {
      InvIsSane(crypto, State());
      ghost var g := State();
      if config.None? {
        return Failed(NotInitialized);
      }
      if phase == OtherPhase {
        return Failed(UnknownPhase);
      }
      var c := config.value;
      var gateBytes := AddressBytes(self);
      if gateBytes.None? {
        return Trap;
      }
      var fields := AttestationFields(c.networkId, gateBytes.value, id, PhaseCode(phase), crypto.sha(reason), sequence);
      var v := VerifyIssuerSignatures(c, AttestationDigest(crypto.sha, fields), signatures);
      if v.Rejected? {
        return Failed(v.error);
      }
      if v.BadSignature? {
        return Trap;
      }
      Publish(e, Testimony(phase, id, reason, sequence));
      clock := e.now;
      InvokeKeepsInv(crypto, g, State(), e, CallAttest(id, reason, phase, sequence, signatures));
      return Returned(0);
    }

    /** Both administrators must authorize, so the role cannot be handed to nobody. */
    method SetAdmin(e: Env, newAdmin: Address) returns (r: Reply)
      requires Valid() && clock <= e.now
      modifies this
      ensures Answers(old(State()), State(), old(Configure(At(e.now), e, Admin(newAdmin))), r)
      ensures Valid()
    {
      InvIsSane(crypto, State());
      if config.None? {
        return Failed(NotInitialized);
      }
      if config.value.admin !in e.auth || newAdmin !in e.auth {
        return Trap;
      }
      ghost var g := State();
      config := Some(config.value.(admin := newAdmin));
      Publish(e, AdminChanged(newAdmin));
      clock := e.now;
      InvokeKeepsInv(crypto, g, State(), e, CallConfigure(Admin(newAdmin)));
      return Returned(0);
    }

    method SetTreasury(e: Env, newTreasury: Address) returns (r: Reply)
      requires Valid() && clock <= e.now
      modifies this
      ensures Answers(old(State()), State(), old(Configure(At(e.now), e, Treasury(newTreasury))), r)
      ensures Valid()
    {
      InvIsSane(crypto, State());
      if config.None? {
        return Failed(NotInitialized);
      }
      if config.value.admin !in e.auth || config.value.treasury !in e.auth {
        return Trap;
      }
      ghost var g := State();
      config := Some(config.value.(treasury := newTreasury));
      Publish(e, TreasuryChanged(newTreasury));
      clock := e.now;
      InvokeKeepsInv(crypto, g, State(), e, CallConfigure(Treasury(newTreasury)));
      return Returned(0);
    }

    method SetPaused(e: Env, paused: bool) returns (r: Reply)
      requires Valid() && clock <= e.now
      modifies this
      ensures Answers(old(State()), State(), old(Configure(At(e.now), e, Pause(paused))), r)
      ensures Valid()
    {
      InvIsSane(crypto, State());
      if config.None? {
        return Failed(NotInitialized);
      }
      if config.value.admin !in e.auth {
        return Trap;
      }
      ghost var g := State();
      config := Some(config.value.(paused := paused));
      clock := e.now;
      InvokeKeepsInv(crypto, g, State(), e, CallConfigure(Pause(paused)));
      return Returned(0);
    }

    method SetProofIssuers(e: Env, issuers: seq<Bytes32>, threshold: nat) returns (r: Reply)
      requires Valid() && clock <= e.now
      modifies this
      ensures Answers(old(State()), State(), old(Configure(At(e.now), e, ProofIssuers(issuers, threshold))), r)
      ensures Valid()
    {
      InvIsSane(crypto, State());
      if config.None? {
        return Failed(NotInitialized);
      }
      if config.value.admin !in e.auth {
        return Trap;
      }
      if threshold == 0 || threshold > |issuers| {
        return Failed(InvalidThreshold);
      }
      ghost var g := State();
      config := Some(config.value.(issuers := issuers, threshold := threshold));
      clock := e.now;
      InvokeKeepsInv(crypto, g, State(), e, CallConfigure(ProofIssuers(issuers, threshold)));
      return Returned(0);
    }

    /** The running window is left alone. */
    method SetLimits(e: Env, maxPerPayable: i128, windowSeconds: u64, maxPerWindow: i128) returns (r: Reply)
      requires Valid() && clock <= e.now
      modifies this
      ensures Answers(old(State()), State(),
                      old(Configure(At(e.now), e, Limits(maxPerPayable, windowSeconds, maxPerWindow))), r)
      ensures Valid() && window == old(window)
    {
      InvIsSane(crypto, State());
      if config.None? {
        return Failed(NotInitialized);
      }
      if config.value.admin !in e.auth {
        return Trap;
      }
      if maxPerPayable <= 0 || maxPerWindow <= 0 || windowSeconds == 0 {
        return Failed(InvalidLimits);
      }
      ghost var g := State();
      config := Some(config.value.(maxPerPayable := maxPerPayable, windowSeconds := windowSeconds,
                                   maxPerWindow := maxPerWindow));
      clock := e.now;
      InvokeKeepsInv(crypto, g, State(), e, CallConfigure(Limits(maxPerPayable, windowSeconds, maxPerWindow)));
      return Returned(0);
    }

    method SetExecutor(e: Env, executor: Address) returns (r: Reply)
      requires Valid() && clock <= e.now
      modifies this
      ensures Answers(old(State()), State(), old(Configure(At(e.now), e, Executor(executor))), r)
      ensures Valid()
    {
      InvIsSane(crypto, State());
      if config.None? {
        return Failed(NotInitialized);
      }
      if config.value.admin !in e.auth {
        return Trap;
      }
      ghost var g := State();
      config := Some(config.value.(executor := executor));
      clock := e.now;
      InvokeKeepsInv(crypto, g, State(), e, CallConfigure(Executor(executor)));
      return Returned(0);
    }
  }
}
