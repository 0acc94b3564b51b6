/** The settlement gate as a state machine: one pure function per entry point, checks in the contract's order. */
module GateSpec {
  import opened Primitives
  import opened Digest

  /** What an XDR address unpacks to; only accounts and contracts are accepted where bytes are needed. */
  datatype Address = Account(key: Bytes32) | Contract(id: Bytes32) | Unsupported(tag: nat)

  /** `address_to_bytes` keeps the last 32 bytes and drops the discriminants; None is its panic. */
  function AddressBytes(a: Address): Option<Bytes32> {
    match a
    case Account(key) => Some(key)
    case Contract(id) => Some(id)
    case Unsupported(_) => None
  }

  datatype Status = Ready | Settled | Expired | Revoked

  datatype Payable = Payable(
    proofHash: Bytes32, recipient: Address, amount: i128, policyHash: Bytes32, expiry: u64, status: Status)

  datatype IssuerSignature = IssuerSignature(issuer: Bytes32, signature: Octets)

  datatype SpendWindow = SpendWindow(startedAt: u64, spent: i128)

  datatype Config = Config(
    admin: Address, issuers: seq<Bytes32>, threshold: nat, networkId: Bytes32, asset: Address, payer: Address,
    treasury: Address, executor: Address, maxPerPayable: i128, windowSeconds: u64, maxPerWindow: i128, paused: bool)

  datatype Error =
    | AlreadyInitialized | NotInitialized | Paused | PayableAlreadyExists | PayableNotFound | NotReady | ProofExpired
    | ProofNotExpired | AmountNotPositive | AmountAboveCap | WindowCapExceeded | ThresholdNotMet | UnknownIssuer
    | DuplicateIssuer | InvalidThreshold | InvalidExpiry | InvalidLimits | UnknownPhase | InsufficientAvailable
    | WithdrawExceedsAvailable | NotAVault | ProofWindowTooLong

  datatype Event =
    | PayableRegistered(id: Bytes32, proofHash: Bytes32)
    | PayableReady(id: Bytes32, recipient: Address, amount: i128, expiry: u64)
    | SettlementExecuted(id: Bytes32, recipient: Address, amount: i128, proofHash: Bytes32)
    | PayableExpired(id: Bytes32, expiry: u64)
    | PayableRevoked(id: Bytes32, reason: Octets)
    | PayableBlocked(id: Bytes32, reason: Octets, sequence: u64)
    | ExceptionResolved(id: Bytes32, reason: Octets, sequence: u64)
    | PayableReconciled(id: Bytes32, reason: Octets, sequence: u64)
    | VaultWithdrawn(treasury: Address, amount: i128)
    | AdminChanged(newAdmin: Address)
    | TreasuryChanged(newTreasury: Address)

  type TxHash = Str

  datatype LoggedEvent = LoggedEvent(tx: TxHash, ledger: nat, event: Event)

  // ---------------------------------------------------------------- history

  /** One executed settlement, with the limits in force and the window it was charged to. */
  datatype Payment = Payment(
    id: Bytes32, to: Address, amount: i128, at: u64, windowSeconds: u64, maxPerWindow: i128,
    opening: nat, spent: i128)

  datatype Withdrawal = Withdrawal(to: Address, amount: i128)

  /** What the signatures on a registration were checked against. */
  datatype Grant = Grant(networkId: Bytes32, asset: Address, issuers: seq<Bytes32>, threshold: nat,
                         signatures: seq<IssuerSignature>)

  /** What has happened so far; no entry point reads it. */
  datatype History = History(
    log: seq<LoggedEvent>, payments: seq<Payment>, withdrawals: seq<Withdrawal>, received: nat,
    grants: map<Bytes32, Grant>, readied: map<Bytes32, nat>, closed: map<Bytes32, nat>, paid: map<Bytes32, nat>,
    opening: nat, lastRegistration: u64)

  /** `balances` is the ledger of the configured asset; an absent holder owns nothing. */
  datatype Gate = Gate(
    self: Address, config: Option<Config>, payables: map<Bytes32, Payable>, committed: i128,
      window: Option<SpendWindow>,
    balances: map<Address, nat>, clock: u64, history: History)

  function NewGate(self: Address): Gate {
    Gate(self, None, map[], 0, None, map[], 0, History([], [], [], 0, map[], map[], map[], map[], 0, 0))
  }

  /** SHA-256 and Ed25519 verification, about which nothing is assumed. */
  datatype Crypto = Crypto(sha: Octets -> Bytes32, verifies: (Bytes32, Bytes32, Octets) -> bool)

  /** One invocation's surroundings: ledger time, transaction, authorizing principals, and whether the token lets
      the transfer through. */
  datatype Env = Env(now: u64, ledger: nat, tx: TxHash, auth: set<Address>, tokenAccepts: bool)

  /** An error or a trap rolls everything back. */
  datatype Outcome = Done(gate: Gate) | Refused(error: Error) | Trapped

  const LONGEST_PROOF_WINDOW_SECONDS: u64 := 604800

  // ---------------------------------------------------------------- queries

  function Balance(g: Gate, who: Address): nat {
    if who in g.balances then g.balances[who] else 0
  }

  predicate IsVault(g: Gate, c: Config) {
    c.payer == g.self
  }

  function Available(g: Gate, c: Config): int {
    if Balance(g, c.payer) > g.committed then Balance(g, c.payer) - g.committed else 0
  }

  function Logged(h: History, e: Env, event: Event): History {
    h.(log := h.log + [LoggedEvent(e.tx, e.ledger, event)])
  }

  // ------------------------------------------------------------- signatures

  datatype Verdict = Accepted | Rejected(error: Error) | BadSignature

  function Issuers(signatures: seq<IssuerSignature>): (keys: seq<Bytes32>)
    ensures |keys| == |signatures|
    ensures forall i :: 0 <= i < |keys| ==> keys[i] == signatures[i].issuer
  {
    seq(|signatures|, i requires 0 <= i < |signatures| => signatures[i].issuer)
  }

  function CheckFrom(crypto: Crypto, issuers: seq<Bytes32>, digest: Bytes32, signatures: seq<IssuerSignature>,
                     i: nat): Verdict
    requires i <= |signatures|
    decreases |signatures| - i
  {
    if i == |signatures| then Accepted
    else if signatures[i].issuer !in issuers then Rejected(UnknownIssuer)
    else if signatures[i].issuer in Issuers(signatures[..i]) then Rejected(DuplicateIssuer)
    else if !crypto.verifies(signatures[i].issuer, digest, signatures[i].signature) then BadSignature
    else CheckFrom(crypto, issuers, digest, signatures, i + 1)
  }

  function CheckSignatures(crypto: Crypto, issuers: seq<Bytes32>, threshold: nat, digest: Bytes32,
                           signatures: seq<IssuerSignature>): Verdict {
    if |signatures| < threshold then Rejected(ThresholdNotMet) else CheckFrom(crypto, issuers, digest, signatures, 0)
  }

  // ---------------------------------------------------------- state changes

  /** The payable enters as READY and its amount is committed. */
  function AddPayable(g: Gate, e: Env, c: Config, id: Bytes32, p: Payable, signatures: seq<IssuerSignature>): Gate
    requires p.status.Ready? && -I128_MAX - 1 <= g.committed + p.amount <= I128_MAX
  {
    var h := Logged(Logged(g.history, e, PayableRegistered(id, p.proofHash)), e,
                    PayableReady(id, p.recipient, p.amount, p.expiry));
    g.(payables := g.payables[id := p], committed := g.committed + p.amount,
       history := h.(grants := h.grants[id := Grant(c.networkId, c.asset, c.issuers, c.threshold, signatures)],
                     readied := h.readied[id := |g.history.log| + 1],
                     lastRegistration := e.now))
  }

  /** `release`: saturating at zero. */
  function Released(committed: i128, amount: i128): i128
    requires committed >= 0 && amount >= 0
  {
    if committed - amount > 0 then committed - amount else 0
  }

  predicate Closing(event: Event, id: Bytes32) {
    match event
    case SettlementExecuted(i, _, _, _) => i == id
    case PayableExpired(i, _) => i == id
    case PayableRevoked(i, _) => i == id
    case _ => false
  }

  /** READY moves to a terminal status and its commitment is released. */
  function Close(g: Gate, e: Env, id: Bytes32, status: Status, event: Event): Gate
    requires id in g.payables && g.committed >= 0 && g.payables[id].amount >= 0
  {
    var p := g.payables[id];
    var h := Logged(g.history, e, event);
    g.(payables := g.payables[id := p.(status := status)], committed := Released(g.committed, p.amount),
       history := h.(closed := h.closed[id := |g.history.log|]))
  }

  /** `transfer` on the token's ledger. */
  function Move(balances: map<Address, nat>, from: Address, to: Address, amount: nat): map<Address, nat>
    requires amount > 0 ==> from in balances && amount <= balances[from]
  {
    if from == to || amount == 0 then balances
    else
      var credit := if to in balances then balances[to] else 0;
      balances[from := balances[from] - amount][to := credit + amount]
  }

  predicate TransferGoesThrough(g: Gate, e: Env, from: Address, amount: int) {
    (from == g.self || from in e.auth) && Balance(g, from) >= amount && e.tokenAccepts
  }

  function ExpireReady(g: Gate, e: Env, id: Bytes32): Gate
    requires id in g.payables && g.committed >= 0 && g.payables[id].amount >= 0
  {
    Close(g, e, id, Expired, PayableExpired(id, g.payables[id].expiry))
  }

  // ------------------------------------------------------------ spend window

  datatype Charge = Charged(window: SpendWindow, opens: bool) | OverCap | Overflow

  function ChargeWindow(g: Gate, now: u64, c: Config, amount: i128): Charge {
    var current := if g.window.Some? then g.window.value else SpendWindow(now, 0);
    var elapsed := if now >= current.startedAt then now - current.startedAt else 0;
    var window := if elapsed >= c.windowSeconds then SpendWindow(now, 0) else current;
    var spent := window.spent + amount;
    if spent > I128_MAX || spent < -I128_MAX - 1 then Overflow
    else if spent > c.maxPerWindow then OverCap
    else Charged(window.(spent := spent), elapsed >= c.windowSeconds || g.window.None?)
  }

  /** The transfer, the charged window and the closed payable, together. */
  function Pay(g: Gate, e: Env, c: Config, id: Bytes32, window: SpendWindow, opens: bool): Gate
    requires id in g.payables && g.committed >= 0 && 0 < g.payables[id].amount <= Balance(g, c.payer)
  {
    var p := g.payables[id];
    var k := |g.history.payments|;
    var opening := if opens then k else g.history.opening;
    var closed := Close(g, e, id, Settled, SettlementExecuted(id, p.recipient, p.amount, p.proofHash));
    closed.(window := Some(window), balances := Move(g.balances, c.payer, p.recipient, p.amount),
            history := closed.history.(
              payments := g.history.payments
                + [Payment(id, p.recipient, p.amount, e.now, c.windowSeconds, c.maxPerWindow, opening, window.spent)],
              paid := g.history.paid[id := k], opening := opening,
              received := g.history.received + if c.payer != g.self && p.recipient == g.self then p.amount else 0))
  }

  // ------------------------------------------------------------ entry points

  /** Enough for every subtraction below to stay in range; kept by every call. */
  ghost predicate Sane(g: Gate) {
    g.committed >= 0 && forall i :: i in g.payables ==> g.payables[i].amount > 0
  }

  predicate ValidThreshold(issuers: seq<Bytes32>, threshold: nat) {
    threshold != 0 && threshold <= |issuers|
  }

  predicate ValidLimits(maxPerPayable: i128, windowSeconds: u64, maxPerWindow: i128) {
    maxPerPayable > 0 && maxPerWindow > 0 && windowSeconds != 0
  }

  /** `holdings` is the asset's ledger at that moment; what the gate already owns counts as received. */
  function Initialize(g: Gate, e: Env, c: Config, holdings: map<Address, nat>): Outcome {
    if g.config.Some? then Refused(AlreadyInitialized)
    else if !ValidThreshold(c.issuers, c.threshold) then Refused(InvalidThreshold)
    else if !ValidLimits(c.maxPerPayable, c.windowSeconds, c.maxPerWindow) then Refused(InvalidLimits)
    else if c.admin !in e.auth then Trapped
    else
      Done(g.(config := Some(c.(paused := false)), balances := holdings,
              history := g.history.(received := if g.self in holdings then holdings[g.self] else 0)))
  }

  function Fields(g: Gate, c: Config, id: Bytes32, p: Payable): Option<RegistrationFields> {
    match (AddressBytes(g.self), AddressBytes(p.recipient), AddressBytes(c.asset))
    case (Some(self), Some(recipient), Some(asset)) =>
      Some(RegistrationFields(c.networkId, self, id, p.proofHash, recipient, asset, p.amount, p.policyHash, p.expiry))
    case _ => None
  }

  /** Everything `register_payable` checks before looking at the signatures. */
  function RegistrationRefusal(g: Gate, e: Env, c: Config, id: Bytes32, p: Payable): Option<Error> {
    if c.paused then Some(Paused)
    else if id in g.payables then Some(PayableAlreadyExists)
    else if p.amount <= 0 then Some(AmountNotPositive)
    else if p.amount > c.maxPerPayable then Some(AmountAboveCap)
    else if p.expiry <= e.now then Some(InvalidExpiry)
    else if p.expiry - e.now > LONGEST_PROOF_WINDOW_SECONDS then Some(ProofWindowTooLong)
    else if IsVault(g, c) && p.amount > Available(g, c) then Some(InsufficientAvailable)
    else None
  }

  function Register(crypto: Crypto, g: Gate, e: Env, id: Bytes32, p: Payable, signatures: seq<IssuerSignature>): Outcome
    requires p.status.Ready?
  {
    if g.config.None? then Refused(NotInitialized)
    else
      var c := g.config.value;
      match RegistrationRefusal(g, e, c, id, p)
      case Some(error) => Refused(error)
      case None =>
        match Fields(g, c, id, p)
        case None => Trapped
        case Some(fields) =>
          match CheckSignatures(crypto, c.issuers, c.threshold, RegistrationDigest(crypto.sha, fields), signatures)
          case Rejected(error) => Refused(error)
          case BadSignature => Trapped
          case Accepted =>
            if -I128_MAX - 1 <= g.committed + p.amount <= I128_MAX then Done(AddPayable(g, e, c, id, p, signatures))
            else Trapped
  }

  function Settle(g: Gate, e: Env, id: Bytes32): Outcome
    requires Sane(g)
  {
    if g.config.None? then Refused(NotInitialized)
    else
      var c := g.config.value;
      if c.paused then Refused(Paused)
      else if c.executor !in e.auth then Trapped
      else if id !in g.payables then Refused(PayableNotFound)
      else
        var p := g.payables[id];
        if !p.status.Ready? then Refused(NotReady)
        else if e.now > p.expiry then Refused(ProofExpired)
        else
          match ChargeWindow(g, e.now, c, p.amount)
          case Overflow => Trapped
          case OverCap => Refused(WindowCapExceeded)
          case Charged(window, opens) =>
            if TransferGoesThrough(g, e, c.payer, p.amount) then Done(Pay(g, e, c, id, window, opens)) else Trapped
  }

  function Expire(g: Gate, e: Env, id: Bytes32): Outcome
    requires Sane(g)
  {
    if id !in g.payables then Refused(PayableNotFound)
    else if !g.payables[id].status.Ready? then Refused(NotReady)
    else if e.now <= g.payables[id].expiry then Refused(ProofNotExpired)
    else Done(ExpireReady(g, e, id))
  }

  predicate Lapsed(g: Gate, now: u64, id: Bytes32) {
    id in g.payables && g.payables[id].status.Ready? && now > g.payables[id].expiry
  }

  /** The gate after sweeping the ids in order, and how many of them were expired. */
  function ExpireBatch(g: Gate, e: Env, ids: seq<Bytes32>): (r: (Gate, nat))
    requires Sane(g)
    ensures Sane(r.0)
  {
    if ids == [] then (g, 0)
    else
      var (before, n) := ExpireBatch(g, e, ids[..|ids| - 1]);
      var id := ids[|ids| - 1];
      if Lapsed(before, e.now, id) then (ExpireReady(before, e, id), n + 1) else (before, n)
  }

  function Revocation(crypto: Crypto, g: Gate, c: Config, id: Bytes32, reason: Octets): Option<RevocationFields>
    requires id in g.payables
  {
    match AddressBytes(g.self)
    case Some(self) => Some(RevocationFields(c.networkId, self, id, g.payables[id].proofHash, crypto.sha(reason)))
    case None => None
  }

  function Revoke(crypto: Crypto, g: Gate, e: Env, id: Bytes32, reason: Octets,
                  signatures: seq<IssuerSignature>): Outcome
    requires Sane(g)
  {
    if g.config.None? then Refused(NotInitialized)
    else
      var c := g.config.value;
      if id !in g.payables then Refused(PayableNotFound)
      else if !g.payables[id].status.Ready? then Refused(NotReady)
      else
        match Revocation(crypto, g, c, id, reason)
        case None => Trapped
        case Some(fields) =>
          match CheckSignatures(crypto, c.issuers, c.threshold, RevocationDigest(crypto.sha, fields), signatures)
          case Rejected(error) => Refused(error)
          case BadSignature => Trapped
          case Accepted => Done(Close(g, e, id, Revoked, PayableRevoked(id, reason)))
  }

  function Withdraw(g: Gate, e: Env, amount: i128): Outcome {
    if g.config.None? then Refused(NotInitialized)
    else
      var c := g.config.value;
      if c.admin !in e.auth then Trapped
      else if !IsVault(g, c) then Refused(NotAVault)
      else if amount <= 0 then Refused(AmountNotPositive)
      else if amount > Available(g, c) then Refused(WithdrawExceedsAvailable)
      else if !TransferGoesThrough(g, e, c.payer, amount) then Trapped
      else
        Done(g.(balances := Move(g.balances, c.payer, c.treasury, amount),
                history := Logged(g.history, e, VaultWithdrawn(c.treasury, amount)).(
                  withdrawals := g.history.withdrawals + [Withdrawal(c.treasury, amount)])))
  }

  datatype Phase = BlockedPhase | ResolvedPhase | ReconciledPhase | OtherPhase

  function PhaseCode(phase: Phase): bv8 {
    match phase
    case BlockedPhase => 0
    case ResolvedPhase => 1
    case _ => 2
  }

  function Testimony(phase: Phase, id: Bytes32, reason: Octets, sequence: u64): Event {
    match phase
    case BlockedPhase => PayableBlocked(id, reason, sequence)
    case ResolvedPhase => ExceptionResolved(id, reason, sequence)
    case _ => PayableReconciled(id, reason, sequence)
  }

  function Attest(crypto: Crypto, g: Gate, e: Env, id: Bytes32, reason: Octets, phase: Phase, sequence: u64,
                  signatures: seq<IssuerSignature>): Outcome {
    if g.config.None? then Refused(NotInitialized)
    else if phase.OtherPhase? then Refused(UnknownPhase)
    else
      var c := g.config.value;
      match AddressBytes(g.self)
      case None => Trapped
      case Some(self) =>
        var fields := AttestationFields(c.networkId, self, id, PhaseCode(phase), crypto.sha(reason), sequence);
        match CheckSignatures(crypto, c.issuers, c.threshold, AttestationDigest(crypto.sha, fields), signatures)
        case Rejected(error) => Refused(error)
        case BadSignature => Trapped
        case Accepted => Done(g.(history := Logged(g.history, e, Testimony(phase, id, reason, sequence))))
  }

  /** The setters: each rewrites one part of the configuration and nothing else. */
  datatype Setting =
    | Admin(newAdmin: Address)
    | Treasury(newTreasury: Address)
    | Pause(paused: bool)
    | ProofIssuers(issuers: seq<Bytes32>, threshold: nat)
    | Limits(maxPerPayable: i128, windowSeconds: u64, maxPerWindow: i128)
    | Executor(executor: Address)

  /** The current admin always authorizes; a new admin and the current treasury must consent to being replaced. */
  predicate SettingAuthorized(c: Config, e: Env, s: Setting) {
    c.admin in e.auth
    && (s.Admin? ==> s.newAdmin in e.auth)
    && (s.Treasury? ==> c.treasury in e.auth)
  }

  function SettingRefusal(s: Setting): Option<Error> {
    match s
    case ProofIssuers(issuers, threshold) => if ValidThreshold(issuers, threshold) then None else Some(InvalidThreshold)
    case Limits(maxPerPayable, windowSeconds, maxPerWindow) =>
      if ValidLimits(maxPerPayable, windowSeconds, maxPerWindow) then None else Some(InvalidLimits)
    case _ => None
  }

  function Apply(c: Config, s: Setting): Config {
    match s
    case Admin(newAdmin) => c.(admin := newAdmin)
    case Treasury(newTreasury) => c.(treasury := newTreasury)
    case Pause(paused) => c.(paused := paused)
    case ProofIssuers(issuers, threshold) => c.(issuers := issuers, threshold := threshold)
    case Limits(maxPerPayable, windowSeconds, maxPerWindow) =>
      c.(maxPerPayable := maxPerPayable, windowSeconds := windowSeconds, maxPerWindow := maxPerWindow)
    case Executor(executor) => c.(executor := executor)
  }

  function Configure(g: Gate, e: Env, s: Setting): Outcome {
    if g.config.None? then Refused(NotInitialized)
    else if !SettingAuthorized(g.config.value, e, s) then Trapped
    else if SettingRefusal(s).Some? then Refused(SettingRefusal(s).value)
    else
      Done(g.(config := Some(Apply(g.config.value, s)),
              history := match s
                         case Admin(newAdmin) => Logged(g.history, e, AdminChanged(newAdmin))
                         case Treasury(newTreasury) => Logged(g.history, e, TreasuryChanged(newTreasury))
                         case _ => g.history))
  }

  // -------------------------------------------------------------------- runs

  datatype Call =
    | CallInitialize(config: Config, holdings: map<Address, nat>)
    | CallRegister(id: Bytes32, payable: Payable, signatures: seq<IssuerSignature>)
    | CallSettle(id: Bytes32)
    | CallExpire(id: Bytes32)
    | CallExpireBatch(ids: seq<Bytes32>)
    | CallRevoke(id: Bytes32, reason: Octets, signatures: seq<IssuerSignature>)
    | CallWithdraw(amount: i128)
    | CallAttest(id: Bytes32, reason: Octets, phase: Phase, sequence: u64, signatures: seq<IssuerSignature>)
    | CallConfigure(setting: Setting)

  predicate Callable(call: Call) {
    call.CallRegister? ==> call.payable.status.Ready?
  }

  /** One invocation at time `e.now`. */
  function Invoke(crypto: Crypto, g: Gate, e: Env, call: Call): Outcome
    requires Sane(g) && Callable(call)
  {
    var at := g.(clock := e.now);
    match call
    case CallInitialize(config, holdings) => Initialize(at, e, config, holdings)
    case CallRegister(id, payable, signatures) => Register(crypto, at, e, id, payable, signatures)
    case CallSettle(id) => Settle(at, e, id)
    case CallExpire(id) => Expire(at, e, id)
    case CallExpireBatch(ids) => Done(ExpireBatch(at, e, ids).0)
    case CallRevoke(id, reason, signatures) => Revoke(crypto, at, e, id, reason, signatures)
    case CallWithdraw(amount) => Withdraw(at, e, amount)
    case CallAttest(id, reason, phase, sequence, signatures) =>
      Attest(crypto, at, e, id, reason, phase, sequence, signatures)
    case CallConfigure(setting) => Configure(at, e, setting)
  }

  /** Others move the token between themselves; the gate's own account can only be credited. */
  function Outside(g: Gate, balances: map<Address, nat>): Gate
    requires (if g.self in balances then balances[g.self] else 0) >= Balance(g, g.self)
  {
    var own := if g.self in balances then balances[g.self] else 0;
    g.(balances := balances, history := g.history.(received := g.history.received + own - Balance(g, g.self)))
  }
}
