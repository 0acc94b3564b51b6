/**
 * Adapters, indexers, sweepers and revocations around one gate and one store. A process takes one step
 * per await; between any two steps other processes and other callers of the gate may act, a process may
 * crash, and a call may land and lose its response.
 */
module Protocol {
  import opened Primitives
  import opened GateSpec
  import S = SettlementStore

  // ------------------------------------------------------------------ calls

  /** What the network does to one submitted call. */
  datatype Response =
    | Answered(env: Env)
    | ResponseLost(env: Env)
    | Injected(error: Error)
    | Unreachable

  datatype CallResult = Submitted(tx: TxHash, ledger: nat) | GateError(error: Error) | Exception

  predicate Timely(g: Gate, r: Response) {
    (r.Answered? ==> g.clock <= r.env.now) && (r.ResponseLost? ==> g.clock <= r.env.now)
  }

  /** The surroundings a call that reaches the gate runs in. */
  function Surroundings(r: Response): Env {
    match r
    case Answered(env) => env
    case ResponseLost(env) => env
    case _ => Env(0, 0, [], {}, false)
  }

  /** What the gate does and what the caller hears, once the gate's own verdict is known. */
  function Delivered(g: Gate, r: Response, verdict: Outcome): (Gate, CallResult) {
    match r
    case Injected(error) => (g, GateError(error))
    case Unreachable => (g, Exception)
    case Answered(env) =>
      (match verdict
       case Done(g') => (g', Submitted(env.tx, env.ledger))
       case Refused(error) => (g, GateError(error))
       case Trapped => (g, Exception))
    case ResponseLost(env) => (if verdict.Done? then verdict.gate else g, Exception)
  }

  function Arriving(g: Gate, r: Response): Gate {
    g.(clock := Surroundings(r).now)
  }

  function SubmitRegister(crypto: Crypto, g: Gate, r: Response, id: Bytes32, p: Payable,
                          signatures: seq<IssuerSignature>): (Gate, CallResult)
    requires p.status.Ready?
  {
    Delivered(g, r, Register(crypto, Arriving(g, r), Surroundings(r), id, p, signatures))
  }

  function SubmitSettle(g: Gate, r: Response, id: Bytes32): (Gate, CallResult)
    requires Sane(g)
  {
    Delivered(g, r, Settle(Arriving(g, r), Surroundings(r), id))
  }

  function SubmitExpireBatch(g: Gate, r: Response, ids: seq<Bytes32>): (Gate, CallResult)
    requires Sane(g)
  {
    Delivered(g, r, Done(ExpireBatch(Arriving(g, r), Surroundings(r), ids).0))
  }

  function SubmitRevoke(crypto: Crypto, g: Gate, r: Response, id: Bytes32, reason: Octets,
                        signatures: seq<IssuerSignature>): (Gate, CallResult)
    requires Sane(g)
  {
    Delivered(g, r, Revoke(crypto, Arriving(g, r), Surroundings(r), id, reason, signatures))
  }

  /** What one step sees of the outside: the network, the local clock, an event page, a listing. */
  datatype Choice = Choice(response: Response, localNow: int, page: seq<nat>, cursor: Option<nat>, latest: nat,
                           ids: seq<Bytes32>)

  datatype Shared = Shared(gate: Gate, store: S.Store)

  // ---------------------------------------------------------------- adapter

  /** A verified proof with its context: what `settle` works from once `#verify` has passed. */
  datatype Order = Order(
    payableId: Str, idHash: Bytes32, terms: Payable, signatures: seq<IssuerSignature>, vendorId: Str, amount: Str,
    unitsText: Str, asset: Str, contractId: Str, invoiceId: Str, poId: Str, fingerprint: Str)

  datatype Refusal = StaleProof | AlreadyClosed | OnChainMismatch | GateRefused

  datatype Receipt = Receipt(tx: TxHash, ledger: nat)

  datatype SettlementOutcome =
    | PaidNow(registerTx: Option<Receipt>, settleTx: Receipt)
    | AlreadyPaid(record: Option<S.SettlementRecord>)
    | RefusedTo(reason: Refusal)
    | Threw

  datatype AdapterPc =
    | RememberProof
    | StoreProof
    | ReadChain
    | MarkClosed(status: S.ProofStatus)
    | RegisterOnChain
    | ReadAgain(registerTx: Option<Receipt>)
    | MarkRegistered(registerTx: Option<Receipt>, seen: Payable)
    | SettleOnChain(registerTx: Option<Receipt>)
    | ReadAfterNotReady
    | RecordPayment(registerTx: Option<Receipt>, settleTx: Receipt)
    | MarkPaid(registerTx: Option<Receipt>, settleTx: Receipt)
    | RememberFingerprint(registerTx: Option<Receipt>, settleTx: Receipt)
    | MarkAlready
    | LookUpRecord
    | LookUpEvent
    | RebuildRecord(event: S.ChainEvent)
    | RebuildFingerprint(event: S.ChainEvent)
    | LookUpAgain
    | Finished(result: SettlementOutcome)

  const MIN_REMAINING_VALIDITY_SECONDS: int := 120

  /** `Settlement.parse` on a verified proof and a real transaction fails only on the context's two texts. */
  predicate HasContext(invoiceId: Str, poId: Str) {
    invoiceId != [] && poId != []
  }

  /** The four fields `#assertMatches` compares; not the policy. */
  predicate Matches(order: Order, p: Payable) {
    p.proofHash == order.terms.proofHash && p.recipient == order.terms.recipient
    && p.amount == order.terms.amount && p.expiry == order.terms.expiry
  }

  function Note(payableId: Str, tx: TxHash): Str {
    payableId + Ascii(" settled in ") + tx
  }

  function RecordFor(order: Order, tx: TxHash, ledger: nat): S.SettlementRecord {
    S.SettlementRecord(order.payableId, order.invoiceId, order.poId, order.terms.proofHash, order.contractId,
                       order.asset, order.amount, tx, ledger, S.Pending)
  }

  function ProofFor(order: Order): S.ProofRecord {
    S.ProofRecord(order.payableId, order.idHash, order.terms.proofHash, order.invoiceId, order.poId, order.vendorId,
                  order.unitsText, order.asset, order.terms.expiry, S.Signed, None)
  }

  function OnChain(g: Gate, id: Bytes32): Option<Payable> {
    if id in g.payables then Some(g.payables[id]) else None
  }

  function AlreadyOutcome(record: Option<S.SettlementRecord>): AdapterPc {
    if record.Some? && !HasContext(record.value.invoiceId, record.value.poId) then Finished(Threw)
    else Finished(AlreadyPaid(record))
  }

  function CheckedToSettle(order: Order, p: Payable, registerTx: Option<Receipt>): AdapterPc {
    if Matches(order, p) then SettleOnChain(registerTx) else Finished(RefusedTo(OnChainMismatch))
  }

  /** One await of `SettlementAdapter.settle` and the code that follows it. */
  ghost function AdapterStep(crypto: Crypto, s: Shared, order: Order, pc: AdapterPc, c: Choice): (Shared, AdapterPc)
    requires Sane(s.gate) && order.terms.status.Ready?
  {
    var g, store, id := s.gate, s.store, order.idHash;
    match pc
    case RememberProof =>
      var existing := S.GetProof(store, id);
      (s, if existing.Some? && !existing.value.status.Signed? then ReadChain else StoreProof)
    case StoreProof => (s.(store := S.UpsertProof(store, ProofFor(order))), ReadChain)
    case ReadChain =>
      (s, match OnChain(g, id)
          case None =>
            if order.terms.expiry - c.localNow < MIN_REMAINING_VALIDITY_SECONDS then Finished(RefusedTo(StaleProof))
            else RegisterOnChain
          case Some(p) =>
            match p.status
            case Settled => MarkAlready
            case Expired => MarkClosed(S.Expired)
            case Revoked => MarkClosed(S.Revoked)
            case Ready => CheckedToSettle(order, p, None))
    case MarkClosed(status) =>
      (s.(store := S.SetProofStatus(store, id, status, None)), Finished(RefusedTo(AlreadyClosed)))
    case RegisterOnChain =>
      var (g', r) := SubmitRegister(crypto, g, c.response, id, order.terms, order.signatures);
      (s.(gate := g'),
       match r
       case Submitted(tx, ledger) => ReadAgain(Some(Receipt(tx, ledger)))
       case GateError(error) =>
         if error.PayableAlreadyExists? then ReadAgain(None) else Finished(RefusedTo(GateRefused))
       case Exception => Finished(Threw))
    case ReadAgain(registerTx) =>
      (s, match OnChain(g, id)
          case None => Finished(RefusedTo(GateRefused))
          case Some(p) => MarkRegistered(registerTx, p))
    case MarkRegistered(registerTx, seen) =>
      (s.(store := S.SetProofStatus(store, id, S.Registered, if registerTx.Some? then Some(registerTx.value.tx)
                                                             else None)),
       if seen.status.Settled? then MarkAlready else CheckedToSettle(order, seen, registerTx))
    case SettleOnChain(registerTx) =>
      var (g', r) := SubmitSettle(g, c.response, id);
      (s.(gate := g'),
       match r
       case Submitted(tx, ledger) =>
         if HasContext(order.invoiceId, order.poId) then RecordPayment(registerTx, Receipt(tx, ledger))
         else Finished(Threw)
       case GateError(error) => if error.NotReady? then ReadAfterNotReady else Finished(RefusedTo(GateRefused))
       case Exception => Finished(Threw))
    case ReadAfterNotReady =>
      var now := OnChain(g, id);
      (s, if now.Some? && now.value.status.Settled? then MarkAlready else Finished(RefusedTo(GateRefused)))
    case RecordPayment(registerTx, settleTx) =>
      (s.(store := S.RecordSettlement(store, RecordFor(order, settleTx.tx, settleTx.ledger))),
       MarkPaid(registerTx, settleTx))
    case MarkPaid(registerTx, settleTx) =>
      (s.(store := S.SetProofStatus(store, id, S.Settled, None)), RememberFingerprint(registerTx, settleTx))
    case RememberFingerprint(registerTx, settleTx) =>
      (s.(store := S.AddFingerprint(store, order.fingerprint, Note(order.payableId, settleTx.tx))),
       Finished(PaidNow(registerTx, settleTx)))
    case MarkAlready => (s.(store := S.SetProofStatus(store, id, S.Settled, None)), LookUpRecord)
    case LookUpRecord =>
      var record := S.GetSettlement(store, order.payableId);
      (s, if record.Some? then AlreadyOutcome(record) else LookUpEvent)
    case LookUpEvent =>
      var event := S.FindSettlementEvent(store, id);
      (s, if event.Some? then RebuildRecord(event.value) else AlreadyOutcome(None))
    case RebuildRecord(event) =>
      (s.(store := S.RecordSettlement(store, RecordFor(order, event.logged.tx, event.logged.ledger))),
       RebuildFingerprint(event))
    case RebuildFingerprint(event) =>
      (s.(store := S.AddFingerprint(store, order.fingerprint, Note(order.payableId, event.logged.tx))), LookUpAgain)
    case LookUpAgain => (s, AlreadyOutcome(S.GetSettlement(store, order.payableId)))
    case Finished(_) => (s, pc)
  }

  // ---------------------------------------------------------------- indexer

  datatype IndexerPc =
    | Fetch(cursor: Option<nat>, pages: nat)
    | StoreEvent(queue: seq<S.ChainEvent>, next: S.Cursor, pages: nat, stop: bool)
    | FindProof(queue: seq<S.ChainEvent>, next: S.Cursor, pages: nat, stop: bool)
    | MarkProof(queue: seq<S.ChainEvent>, next: S.Cursor, pages: nat, stop: bool)
    | FindRecord(queue: seq<S.ChainEvent>, next: S.Cursor, pages: nat, stop: bool, proof: S.ProofRecord)
    | RecordEventPayment(queue: seq<S.ChainEvent>, next: S.Cursor, pages: nat, stop: bool, proof: S.ProofRecord)
    | MarkProofPaid(queue: seq<S.ChainEvent>, next: S.Cursor, pages: nat, stop: bool, proof: S.ProofRecord)
    | RememberPaid(queue: seq<S.ChainEvent>, next: S.Cursor, pages: nat, stop: bool, proof: S.ProofRecord)
    | Stopped

  /** `PROOF_STATUS_BY_EVENT`. */
  function StatusByEvent(e: Event): Option<S.ProofStatus> {
    match e
    case PayableRegistered(_, _) => Some(S.Registered)
    case PayableRevoked(_, _) => Some(S.Revoked)
    case PayableExpired(_, _) => Some(S.Expired)
    case _ => None
  }

  function VendorFingerprint(proof: S.ProofRecord): Str {
    proof.vendorId + Ascii("|") + proof.amount
  }

  function RecordFromEvent(proof: S.ProofRecord, contractId: Str, e: S.ChainEvent): S.SettlementRecord {
    S.SettlementRecord(proof.payableId, proof.invoiceId, proof.poId, proof.proofHash, contractId, proof.asset,
                       proof.amount,
                       e.logged.tx, e.logged.ledger, S.Pending)
  }

  /** What the source returned: entries of the log, in any order, any number of times. */
  function Page(g: Gate, ids: seq<nat>): (events: seq<S.ChainEvent>)
    requires forall k :: 0 <= k < |ids| ==> ids[k] < |g.history.log|
    ensures |events| == |ids|
    ensures forall k :: 0 <= k < |events| ==> events[k] == S.ChainEvent(ids[k], g.history.log[ids[k]])
  {
    seq(|ids|, k requires 0 <= k < |ids| => S.ChainEvent(ids[k], g.history.log[ids[k]]))
  }

  predicate PageIsReal(g: Gate, ids: seq<nat>) {
    forall k :: 0 <= k < |ids| ==> ids[k] < |g.history.log|
  }

  /** After an event has been dealt with: the next one, or the page's cursor. */
  function Rest(pc: IndexerPc): IndexerPc
    requires !pc.Fetch? && !pc.Stopped? && pc.queue != []
  {
    StoreEvent(pc.queue[1..], pc.next, pc.pages, pc.stop)
  }

  /** One await of `EventIndexer.poll`. `name` is the cursor's key. */
  function IndexerStep(s: Shared, name: Str, contractId: Str, pc: IndexerPc, c: Choice): (Shared, IndexerPc)
    requires PageIsReal(s.gate, c.page)
    requires pc.Fetch? || pc.Stopped? || pc.StoreEvent? || pc.queue != []
    requires pc.FindProof? || pc.MarkProof? || pc.FindRecord? || pc.RecordEventPayment? || pc.MarkProofPaid?
             || pc.RememberPaid? ==>
               S.Subject(pc.queue[0].logged.event).Some?
  {
    var g, store := s.gate, s.store;
    match pc
    case Fetch(cursor, pages) =>
      if pages == 0 || c.response.Unreachable? then (s, Stopped)
      else
        var next := if c.cursor.Some? then c.cursor else cursor;
        (s, StoreEvent(Page(g, c.page), S.Cursor(next, c.latest), pages - 1, next == cursor && c.page == []))
    case StoreEvent(queue, next, pages, stop) =>
      if queue == [] then
        (s.(store := S.SetCursor(store, name, next)), if stop then Stopped else Fetch(next.cursor, pages))
      else if queue[0].id in store.events then (s, Rest(pc))
      else
        var e := queue[0].logged.event;
        (s.(store := S.RecordChainEvent(store, queue[0])),
         if S.Subject(e).Some?
           && (StatusByEvent(e).Some? || e.SettlementExecuted?) then FindProof(queue, next, pages, stop) else Rest(pc))
    case FindProof(queue, next, pages, stop) =>
      var e := queue[0].logged.event;
      var proof := S.GetProof(store, S.Subject(e).value);
      (s, match (StatusByEvent(e), proof)
          case (_, None) => Rest(pc)
          case (Some(status), Some(p)) =>
            if !status.Registered? || p.status.Signed? then MarkProof(queue, next, pages, stop) else Rest(pc)
          case (None, Some(p)) => FindRecord(queue, next, pages, stop, p))
    case MarkProof(queue, _, _, _) =>
      var e := queue[0].logged;
      var status := StatusByEvent(e.event);
      (if status.None? then s
       else s.(store :=
               S.SetProofStatus(store, S.Subject(e.event).value, status.value,
                                if status.value.Registered? then Some(e.tx) else None)),
       Rest(pc))
    case FindRecord(queue, next, pages, stop, proof) =>
      (s, if S.GetSettlement(store, proof.payableId).Some? then MarkProofPaid(queue, next, pages, stop, proof)
          else RecordEventPayment(queue, next, pages, stop, proof))
    case RecordEventPayment(queue, next, pages, stop, proof) =>
      (s.(store := S.RecordSettlement(store, RecordFromEvent(proof, contractId, queue[0]))),
       MarkProofPaid(queue, next, pages, stop, proof))
    case MarkProofPaid(queue, next, pages, stop, proof) =>
      (s.(store := S.SetProofStatus(store, S.Subject(queue[0].logged.event).value, S.Settled, None)),
       RememberPaid(queue, next, pages, stop, proof))
    case RememberPaid(queue, _, _, _, proof) =>
      (s.(store := S.AddFingerprint(store, VendorFingerprint(proof), Note(proof.payableId, queue[0].logged.tx))),
       Rest(pc))
    case Stopped => (s, pc)
  }

  // ---------------------------------------------------- sweep and revocation

  datatype SweepPc =
    | ListLapsed
    | ExpireLapsed(ids: seq<Bytes32>)
    | LookAt(ids: seq<Bytes32>)
    | MarkSwept(status: S.ProofStatus, ids: seq<Bytes32>)
    | Swept

  /** The sweep's candidates: proofs recorded as registered whose expiry has passed on the local clock. */
  ghost predicate IsLapsedListing(store: S.Store, now: int, ids: seq<Bytes32>) {
    forall h :: h in ids <==> h in S.OpenRegistrations(store) && store.proofs[h].expiry < now
  }

  function SweepStep(s: Shared, pc: SweepPc, c: Choice): (Shared, SweepPc)
    requires Sane(s.gate) && (pc.MarkSwept? ==> pc.ids != [])
  {
    match pc
    case ListLapsed => (s, if c.ids == [] then Swept else ExpireLapsed(c.ids))
    case ExpireLapsed(ids) =>
      var (g', r) := SubmitExpireBatch(s.gate, c.response, ids);
      (s.(gate := g'), if r.Submitted? then LookAt(ids) else Swept)
    case LookAt(ids) =>
      if ids == [] then (s, Swept)
      else
        (s, match OnChain(s.gate, ids[0])
            case Some(p) =>
              if p.status.Expired? then MarkSwept(S.Expired, ids)
              else if p.status.Settled? then MarkSwept(S.Settled, ids)
              else LookAt(ids[1..])
            case None => LookAt(ids[1..]))
    case MarkSwept(status, ids) => (s.(store := S.SetProofStatus(s.store, ids[0], status, None)), LookAt(ids[1..]))
    case Swept => (s, pc)
  }

  datatype RevokePc =
    | RevokeOnChain(idHash: Bytes32, reason: Octets, signatures: seq<IssuerSignature>)
    | MarkRevoked(idHash: Bytes32)
    | RevokeDone

  function RevokeStep(crypto: Crypto, s: Shared, pc: RevokePc, c: Choice): (Shared, RevokePc)
    requires Sane(s.gate)
  {
    match pc
    case RevokeOnChain(idHash, reason, signatures) =>
      var (g', r) := SubmitRevoke(crypto, s.gate, c.response, idHash, reason, signatures);
      (s.(gate := g'), if r.Submitted? then MarkRevoked(idHash) else RevokeDone)
    case MarkRevoked(idHash) => (s.(store := S.SetProofStatus(s.store, idHash, S.Revoked, None)), RevokeDone)
    case RevokeDone => (s, pc)
  }
}
