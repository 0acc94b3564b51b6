/** Exactly-once payment and a store that never claims more than the chain shows, in every interleaving. */
module ProtocolSafety {
  import opened Primitives
  import opened Text
  import opened GateSpec
  import opened GateInvariants
  import opened GateTheorems
  import opened Protocol
  import S = SettlementStore

  // ------------------------------------------------------------------ facts

  /** The on-chain id of a payable: SHA-256 of its name. */
  function IdOf(crypto: Crypto, payableId: Str): Bytes32 {
    crypto.sha(Utf8(payableId))
  }

  predicate Present(g: Gate, id: Bytes32) {
    id in g.payables
  }

  predicate Has(g: Gate, id: Bytes32, status: Status) {
    id in g.payables && g.payables[id].status == status
  }

  predicate TermsOnChain(g: Gate, order: Order) {
    order.idHash in g.payables && Matches(order, g.payables[order.idHash])
  }

  predicate SettledAt(log: seq<LoggedEvent>, k: nat, id: Bytes32, tx: TxHash, ledger: nat) {
    k < |log| && log[k].event.SettlementExecuted? && log[k].event.id == id && log[k].tx == tx && log[k].ledger == ledger
  }

  /** The chain's log shows this settlement. */
  ghost predicate PaidIn(g: Gate, id: Bytes32, tx: TxHash, ledger: nat) {
    exists k: nat :: SettledAt(g.history.log, k, id, tx, ledger)
  }

  predicate Authentic(g: Gate, e: S.ChainEvent) {
    e.id < |g.history.log| && g.history.log[e.id] == e.logged
  }

  /** What the chain must show before a proof may carry a status. */
  predicate StatusBacked(g: Gate, id: Bytes32, status: S.ProofStatus) {
    match status
    case Signed => true
    case Registered => Present(g, id)
    case Settled => Has(g, id, Settled)
    case Expired => Has(g, id, Expired)
    case Revoked => Has(g, id, Revoked)
  }

  predicate ProofBacked(crypto: Crypto, g: Gate, id: Bytes32, p: S.ProofRecord) {
    p.idHash == id && IdOf(crypto, p.payableId) == id && StatusBacked(g, id, p.status)
  }

  ghost predicate RecordBacked(crypto: Crypto, g: Gate, payableId: Str, r: S.SettlementRecord) {
    r.payableId == payableId && PaidIn(g, IdOf(crypto, payableId), r.tx, r.ledger)
  }

  ghost predicate ProofsBacked(crypto: Crypto, g: Gate, proofs: map<Bytes32, S.ProofRecord>) {
    forall id :: id in proofs ==> ProofBacked(crypto, g, id, proofs[id])
  }

  ghost predicate RecordsBacked(crypto: Crypto, g: Gate, settlements: map<Str, S.SettlementRecord>) {
    forall p :: p in settlements ==> RecordBacked(crypto, g, p, settlements[p])
  }

  ghost predicate EventsBacked(g: Gate, events: map<nat, S.ChainEvent>) {
    forall i :: i in events ==> events[i].id == i && Authentic(g, events[i])
  }

  /** The store claims nothing the chain does not show. */
  ghost predicate Backed(crypto: Crypto, g: Gate, s: S.Store) {
    ProofsBacked(crypto, g, s.proofs) && RecordsBacked(crypto, g, s.settlements) && EventsBacked(g, s.events)
  }

  // ------------------------------------------------ the chain never takes back

  lemma PaidStays(g: Gate, g': Gate, id: Bytes32, tx: TxHash, ledger: nat)
    requires Advances(g, g') && PaidIn(g, id, tx, ledger)
    ensures PaidIn(g', id, tx, ledger)
  {
    var k: nat :| SettledAt(g.history.log, k, id, tx, ledger);
    assert SettledAt(g'.history.log, k, id, tx, ledger);
  }

  lemma FactsStay(g: Gate, g': Gate, id: Bytes32)
    requires Advances(g, g')
    ensures Present(g, id) ==> Present(g', id) && SameTerms(g.payables[id], g'.payables[id])
    ensures forall status :: Has(g, id, status) && !status.Ready? ==> Has(g', id, status)
    ensures forall status :: StatusBacked(g, id, status) ==> StatusBacked(g', id, status)
  {
    if id in g.payables {
      assert Matures(g.payables[id], g'.payables[id]);
    }
  }

  lemma BackingStays(crypto: Crypto, g: Gate, g': Gate, s: S.Store)
    requires Advances(g, g') && Backed(crypto, g, s)
    ensures Backed(crypto, g', s)
  {
    forall id | id in s.proofs ensures ProofBacked(crypto, g', id, s.proofs[id]) {
      assert ProofBacked(crypto, g, id, s.proofs[id]);
      FactsStay(g, g', id);
    }
    forall p | p in s.settlements ensures RecordBacked(crypto, g', p, s.settlements[p]) {
      assert RecordBacked(crypto, g, p, s.settlements[p]);
      PaidStays(g, g', IdOf(crypto, p), s.settlements[p].tx, s.settlements[p].ledger);
    }
    forall i | i in s.events ensures s.events[i].id == i && Authentic(g', s.events[i]) {
      assert Authentic(g, s.events[i]);
    }
  }

  // -------------------------------------------------------- backed store writes

  lemma UpsertStaysBacked(crypto: Crypto, g: Gate, s: S.Store, p: S.ProofRecord)
    requires Backed(crypto, g, s) && p.idHash == IdOf(crypto, p.payableId) && p.status.Signed?
    ensures Backed(crypto, g, S.UpsertProof(s, p))
  {
  }

  lemma StatusStaysBacked(crypto: Crypto, g: Gate, s: S.Store, id: Bytes32, status: S.ProofStatus, tx: Option<TxHash>)
    requires Backed(crypto, g, s) && StatusBacked(g, id, status)
    ensures Backed(crypto, g, S.SetProofStatus(s, id, status, tx))
  {
    if id in s.proofs {
      assert ProofBacked(crypto, g, id, s.proofs[id]);
    }
  }

  lemma RecordStaysBacked(crypto: Crypto, g: Gate, s: S.Store, r: S.SettlementRecord)
    requires Backed(crypto, g, s) && PaidIn(g, IdOf(crypto, r.payableId), r.tx, r.ledger)
    ensures Backed(crypto, g, S.RecordSettlement(s, r))
  {
    assert RecordBacked(crypto, g, r.payableId, r);
  }

  lemma EventStaysBacked(crypto: Crypto, g: Gate, s: S.Store, e: S.ChainEvent)
    requires Backed(crypto, g, s) && Authentic(g, e)
    ensures Backed(crypto, g, S.RecordChainEvent(s, e))
  {
  }

  // --------------------------------------------------- what the log says is so

  /** An authentic closing event means that terminal status, for ever. */
  lemma ClosingEventTells(crypto: Crypto, g: Gate, k: nat)
    requires Inv(crypto, g) && k < |g.history.log|
    ensures var e := g.history.log[k].event;
            (e.SettlementExecuted? ==> Has(g, e.id, Settled) && e.recipient == g.payables[e.id].recipient
                                       && e.amount == g.payables[e.id].amount
                                         && e.proofHash == g.payables[e.id].proofHash)
            && (e.PayableExpired? ==> Has(g, e.id, Expired))
            && (e.PayableRevoked? ==> Has(g, e.id, Revoked))
            && (e.PayableRegistered? ==> Present(g, e.id))
  {
    var e := g.history.log[k].event;
    var h := g.history;
    assert Holds(Log, crypto, g);
    assert Traced(e, k, h.readied, h.closed);
    if e.SettlementExecuted? || e.PayableExpired? || e.PayableRevoked? {
      assert ClosedAt(h.log, h.closed[e.id], e.id, g.payables[e.id]);
    }
  }

  /** There is one settlement event per payable, so any two sightings of it agree. */
  lemma OneSettlementEvent(crypto: Crypto, g: Gate, id: Bytes32, j: nat, k: nat)
    requires Inv(crypto, g) && j < |g.history.log| && k < |g.history.log|
    requires g.history.log[j].event.SettlementExecuted? && g.history.log[j].event.id == id
    requires g.history.log[k].event.SettlementExecuted? && g.history.log[k].event.id == id
    ensures j == k
  {
    var h := g.history;
    assert Holds(Log, crypto, g);
    assert Traced(h.log[j].event, j, h.readied, h.closed) && Traced(h.log[k].event, k, h.readied, h.closed);
  }

  lemma PaidMeansSettled(crypto: Crypto, g: Gate, id: Bytes32, tx: TxHash, ledger: nat)
    requires Inv(crypto, g) && PaidIn(g, id, tx, ledger)
    ensures Has(g, id, Settled)
  {
    var k: nat :| SettledAt(g.history.log, k, id, tx, ledger);
    ClosingEventTells(crypto, g, k);
  }

  // ---------------------------------------------------------------- processes

  ghost predicate OrderOk(crypto: Crypto, order: Order) {
    order.idHash == IdOf(crypto, order.payableId) && order.terms.status.Ready?
  }

  /** What an adapter run knows about the chain at each of its awaits. */
  ghost predicate AdapterOk(crypto: Crypto, g: Gate, order: Order, pc: AdapterPc) {
    OrderOk(crypto, order)
    && match pc
       case MarkClosed(status) => StatusBacked(g, order.idHash, status)
       case MarkRegistered(_, seen) =>
         Present(g, order.idHash) && SameTerms(seen, g.payables[order.idHash])
         && (seen.status.Settled? ==> Has(g, order.idHash, Settled))
       case SettleOnChain(_) => TermsOnChain(g, order)
       case RecordPayment(_, t) => TermsOnChain(g, order) && PaidIn(g, order.idHash, t.tx, t.ledger)
       case MarkPaid(_, t) => TermsOnChain(g, order) && PaidIn(g, order.idHash, t.tx, t.ledger)
       case RememberFingerprint(_, t) => TermsOnChain(g, order) && PaidIn(g, order.idHash, t.tx, t.ledger)
       case MarkAlready => Has(g, order.idHash, Settled)
       case LookUpRecord => Has(g, order.idHash, Settled)
       case LookUpEvent => Has(g, order.idHash, Settled)
       case RebuildRecord(e) => PaidIn(g, order.idHash, e.logged.tx, e.logged.ledger) && Has(g, order.idHash, Settled)
       case RebuildFingerprint(e) => Has(g, order.idHash, Settled)
       case LookUpAgain => Has(g, order.idHash, Settled)
       case Finished(PaidNow(_, t)) => TermsOnChain(g, order) && PaidIn(g, order.idHash, t.tx, t.ledger)
       case Finished(AlreadyPaid(r)) =>
         Has(g, order.idHash, Settled)
         && (r.Some? ==> r.value.payableId == order.payableId && PaidIn(g, order.idHash, r.value.tx, r.value.ledger))
       case _ => true
  }

  ghost predicate QueueReal(g: Gate, queue: seq<S.ChainEvent>) {
    forall e :: e in queue ==> Authentic(g, e)
  }

  predicate HandlesSettlement(crypto: Crypto, queue: seq<S.ChainEvent>, proof: S.ProofRecord) {
    queue != [] && queue[0].logged.event.SettlementExecuted?
      && queue[0].logged.event.id == IdOf(crypto, proof.payableId)
  }

  predicate HandlesEvent(queue: seq<S.ChainEvent>) {
    queue != [] && (StatusByEvent(queue[0].logged.event).Some? || queue[0].logged.event.SettlementExecuted?)
  }

  ghost predicate IndexerOk(crypto: Crypto, g: Gate, pc: IndexerPc) {
    match pc
    case Fetch(_, _) => true
    case Stopped => true
    case StoreEvent(queue, _, _, _) => QueueReal(g, queue)
    case FindProof(queue, _, _, _) => QueueReal(g, queue) && HandlesEvent(queue)
    case MarkProof(queue, _, _, _) => QueueReal(g, queue) && HandlesEvent(queue)
    case FindRecord(queue, _, _, _, proof) => QueueReal(g, queue) && HandlesSettlement(crypto, queue, proof)
    case RecordEventPayment(queue, _, _, _, proof) => QueueReal(g, queue) && HandlesSettlement(crypto, queue, proof)
    case MarkProofPaid(queue, _, _, _, proof) => QueueReal(g, queue) && HandlesSettlement(crypto, queue, proof)
    case RememberPaid(queue, _, _, _, proof) => QueueReal(g, queue) && HandlesSettlement(crypto, queue, proof)
  }

  predicate SweepOk(g: Gate, pc: SweepPc) {
    pc.MarkSwept? ==> pc.ids != [] && StatusBacked(g, pc.ids[0], pc.status)
  }

  predicate RevokeOk(g: Gate, pc: RevokePc) {
    pc.MarkRevoked? ==> Has(g, pc.idHash, Revoked)
  }

  datatype Process =
    | Adapter(order: Order, settle: AdapterPc)
    | Indexer(name: Str, contractId: Str, poll: IndexerPc)
    | Sweeper(sweep: SweepPc)
    | Revoker(revoke: RevokePc)

  ghost predicate ProcessOk(crypto: Crypto, g: Gate, p: Process) {
    match p
    case Adapter(order, pc) => AdapterOk(crypto, g, order, pc)
    case Indexer(_, _, pc) => IndexerOk(crypto, g, pc)
    case Sweeper(pc) => SweepOk(g, pc)
    case Revoker(pc) => RevokeOk(g, pc)
  }

  /** What a process knows stays true whatever the gate does meanwhile. */
  lemma KnowledgeStays(crypto: Crypto, g: Gate, g': Gate, p: Process)
    requires Advances(g, g') && ProcessOk(crypto, g, p)
    ensures ProcessOk(crypto, g', p)
  {
    match p {
      case Adapter(order, pc) => AdapterKnowledgeStays(crypto, g, g', order, pc);
      case Indexer(_, _, pc) =>
      case Sweeper(pc) =>
        if pc.MarkSwept? {
          FactsStay(g, g', pc.ids[0]);
        }
      case Revoker(pc) =>
        if pc.MarkRevoked? {
          FactsStay(g, g', pc.idHash);
        }
    }
  }

  lemma AdapterKnowledgeStays(crypto: Crypto, g: Gate, g': Gate, order: Order, pc: AdapterPc)
    requires Advances(g, g') && AdapterOk(crypto, g, order, pc)
    ensures AdapterOk(crypto, g', order, pc)
  {
    FactsStay(g, g', order.idHash);
    match pc {
      case RecordPayment(_, t) => PaidStays(g, g', order.idHash, t.tx, t.ledger);
      case MarkPaid(_, t) => PaidStays(g, g', order.idHash, t.tx, t.ledger);
      case RememberFingerprint(_, t) => PaidStays(g, g', order.idHash, t.tx, t.ledger);
      case RebuildRecord(e) => PaidStays(g, g', order.idHash, e.logged.tx, e.logged.ledger);
      case Finished(PaidNow(_, t)) => PaidStays(g, g', order.idHash, t.tx, t.ledger);
      case Finished(AlreadyPaid(r)) =>
        if r.Some? {
          PaidStays(g, g', order.idHash, r.value.tx, r.value.ledger);
        }
      case _ =>
    }
  }

  // -------------------------------------------------------------------- calls

  /** Whatever the network makes of a call, the gate has run it once or not at all. */
  lemma DeliveryKeepsGate(crypto: Crypto, g: Gate, r: Response, call: Call, verdict: Outcome)
    requires Inv(crypto, g) && Sane(g) && Callable(call) && Timely(g, r)
    requires verdict == Invoke(crypto, g, Surroundings(r), call)
    ensures var g' := Delivered(g, r, verdict).0; Inv(crypto, g') && Sane(g') && Advances(g, g')
  {
    var g' := Delivered(g, r, verdict).0;
    if (r.Answered? || r.ResponseLost?) && verdict.Done? {
      InvokeKeepsInv(crypto, g, g', r.env, call);
      InvokeAdvances(crypto, g, g', r.env, call);
      InvIsSane(crypto, g');
    }
  }

  lemma RegisterCallKeepsGate(crypto: Crypto, g: Gate, r: Response, id: Bytes32, p: Payable,
                              signatures: seq<IssuerSignature>)
    requires Inv(crypto, g) && Sane(g) && Timely(g, r) && p.status.Ready?
    ensures var g' := SubmitRegister(crypto, g, r, id, p, signatures).0; Inv(crypto, g') && Sane(g') && Advances(g, g')
  {
    var verdict := Invoke(crypto, g, Surroundings(r), CallRegister(id, p, signatures));
    DeliveryKeepsGate(crypto, g, r, CallRegister(id, p, signatures), verdict);
  }

  /** An answered settle is in the log, in the transaction and ledger the answer names. */
  lemma SettleCallKeepsGate(crypto: Crypto, g: Gate, r: Response, id: Bytes32)
    requires Inv(crypto, g) && Sane(g) && Timely(g, r)
    ensures var (g', result) := SubmitSettle(g, r, id);
            Inv(crypto, g') && Sane(g') && Advances(g, g')
              && (result.Submitted? ==> PaidIn(g', id, result.tx, result.ledger))
  {
    var verdict := Invoke(crypto, g, Surroundings(r), CallSettle(id));
    DeliveryKeepsGate(crypto, g, r, CallSettle(id), verdict);
    var (g', result) := SubmitSettle(g, r, id);
    if result.Submitted? {
      assert SettledAt(g'.history.log, |g.history.log|, id, result.tx, result.ledger);
    }
  }

  lemma ExpireCallKeepsGate(crypto: Crypto, g: Gate, r: Response, ids: seq<Bytes32>)
    requires Inv(crypto, g) && Sane(g) && Timely(g, r)
    ensures var g' := SubmitExpireBatch(g, r, ids).0; Inv(crypto, g') && Sane(g') && Advances(g, g')
  {
    var verdict := Invoke(crypto, g, Surroundings(r), CallExpireBatch(ids));
    DeliveryKeepsGate(crypto, g, r, CallExpireBatch(ids), verdict);
  }

  lemma RevokeCallKeepsGate(crypto: Crypto, g: Gate, r: Response, id: Bytes32, reason: Octets,
                            signatures: seq<IssuerSignature>)
    requires Inv(crypto, g) && Sane(g) && Timely(g, r)
    ensures var (g', result) := SubmitRevoke(crypto, g, r, id, reason, signatures);
            Inv(crypto, g') && Sane(g') && Advances(g, g') && (result.Submitted? ==> Has(g', id, Revoked))
  {
    var verdict := Invoke(crypto, g, Surroundings(r), CallRevoke(id, reason, signatures));
    DeliveryKeepsGate(crypto, g, r, CallRevoke(id, reason, signatures), verdict);
  }

  // -------------------------------------------------------------------- steps

  ghost predicate SharedOk(crypto: Crypto, s: Shared) {
    Inv(crypto, s.gate) && Sane(s.gate) && Backed(crypto, s.gate, s.store)
  }

  ghost predicate StepOk(crypto: Crypto, s: Shared, s': Shared, p: Process) {
    SharedOk(crypto, s') && Advances(s.gate, s'.gate) && ProcessOk(crypto, s'.gate, p)
  }

  predicate CallsGate(pc: AdapterPc) {
    pc.RegisterOnChain? || pc.SettleOnChain?
  }

  lemma AdapterRegisterOk(crypto: Crypto, s: Shared, order: Order, c: Choice)
    requires SharedOk(crypto, s) && OrderOk(crypto, order) && Timely(s.gate, c.response)
    ensures var (s', pc') := AdapterStep(crypto, s, order, RegisterOnChain, c);
            StepOk(crypto, s, s', Adapter(order, pc'))
  {
    var g' := AdapterStep(crypto, s, order, RegisterOnChain, c).0.gate;
    RegisterCallKeepsGate(crypto, s.gate, c.response, order.idHash, order.terms, order.signatures);
    BackingStays(crypto, s.gate, g', s.store);
  }

  lemma AdapterSettleOk(crypto: Crypto, s: Shared, order: Order, registerTx: Option<Receipt>, c: Choice)
    requires SharedOk(crypto, s) && OrderOk(crypto, order) && TermsOnChain(s.gate, order) && Timely(s.gate, c.response)
    ensures var (s', pc') := AdapterStep(crypto, s, order, SettleOnChain(registerTx), c);
            StepOk(crypto, s, s', Adapter(order, pc'))
  {
    var g' := AdapterStep(crypto, s, order, SettleOnChain(registerTx), c).0.gate;
    SettleCallKeepsGate(crypto, s.gate, c.response, order.idHash);
    BackingStays(crypto, s.gate, g', s.store);
    FactsStay(s.gate, g', order.idHash);
  }

  lemma AdapterCallOk(crypto: Crypto, s: Shared, order: Order, pc: AdapterPc, c: Choice)
    requires SharedOk(crypto, s) && AdapterOk(crypto, s.gate, order, pc) && Timely(s.gate, c.response) && CallsGate(pc)
    ensures var (s', pc') := AdapterStep(crypto, s, order, pc, c); StepOk(crypto, s, s', Adapter(order, pc'))
  {
    if pc.RegisterOnChain? {
      AdapterRegisterOk(crypto, s, order, c);
    } else {
      AdapterSettleOk(crypto, s, order, pc.registerTx, c);
    }
  }

  lemma FoundIsPaid(crypto: Crypto, s: Shared, id: Bytes32)
    requires SharedOk(crypto, s)
    ensures var found := S.FindSettlementEvent(s.store, id);
            found.Some? ==> PaidIn(s.gate, id, found.value.logged.tx, found.value.logged.ledger)
  {
    var found := S.FindSettlementEvent(s.store, id);
    if found.Some? {
      var k :| S.IsLatestSettlement(s.store.events, id, k) && found.value == s.store.events[k];
      assert Authentic(s.gate, found.value);
      assert SettledAt(s.gate.history.log, k, id, found.value.logged.tx, found.value.logged.ledger);
    }
  }

  predicate LooksUp(pc: AdapterPc) {
    pc.LookUpRecord? || pc.LookUpEvent? || pc.LookUpAgain?
  }

  lemma AdapterLookUpOk(crypto: Crypto, s: Shared, order: Order, pc: AdapterPc, c: Choice)
    requires SharedOk(crypto, s) && AdapterOk(crypto, s.gate, order, pc) && LooksUp(pc)
    ensures AdapterOk(crypto, s.gate, order, AdapterStep(crypto, s, order, pc, c).1)
  {
    if pc.LookUpEvent? {
      FoundIsPaid(crypto, s, order.idHash);
    } else {
      AlreadyRecorded(crypto, s, order);
    }
  }

  lemma AlreadyRecorded(crypto: Crypto, s: Shared, order: Order)
    requires SharedOk(crypto, s) && OrderOk(crypto, order)
    ensures var r := S.GetSettlement(s.store, order.payableId);
            r.Some? ==> r.value.payableId == order.payableId && PaidIn(s.gate, order.idHash, r.value.tx, r.value.ledger)
  {
    if order.payableId in s.store.settlements {
      assert RecordBacked(crypto, s.gate, order.payableId, s.store.settlements[order.payableId]);
    }
  }

  lemma AdapterWriteOk(crypto: Crypto, s: Shared, order: Order, pc: AdapterPc, c: Choice)
    requires SharedOk(crypto, s) && AdapterOk(crypto, s.gate, order, pc) && !CallsGate(pc)
    ensures var (s', pc') := AdapterStep(crypto, s, order, pc, c); s'.gate == s.gate && Backed(crypto, s.gate, s'.store)
  {
    var g, store, id := s.gate, s.store, order.idHash;
    match pc {
      case StoreProof => UpsertStaysBacked(crypto, g, store, ProofFor(order));
      case MarkClosed(status) => StatusStaysBacked(crypto, g, store, id, status, None);
      case MarkRegistered(rt, _) =>
        StatusStaysBacked(crypto, g, store, id, S.Registered, if rt.Some? then Some(rt.value.tx) else None);
      case RecordPayment(_, t) => RecordStaysBacked(crypto, g, store, RecordFor(order, t.tx, t.ledger));
      case MarkPaid(_, t) =>
        PaidMeansSettled(crypto, g, id, t.tx, t.ledger);
        StatusStaysBacked(crypto, g, store, id, S.Settled, None);
      case MarkAlready => StatusStaysBacked(crypto, g, store, id, S.Settled, None);
      case RebuildRecord(e) => RecordStaysBacked(crypto, g, store, RecordFor(order, e.logged.tx, e.logged.ledger));
      case _ =>
    }
  }

  lemma AdapterAfterWriteOk(crypto: Crypto, s: Shared, order: Order, pc: AdapterPc, c: Choice)
    requires SharedOk(crypto, s) && AdapterOk(crypto, s.gate, order, pc) && !CallsGate(pc)
    ensures AdapterOk(crypto, s.gate, order, AdapterStep(crypto, s, order, pc, c).1)
  {
    if LooksUp(pc) {
      AdapterLookUpOk(crypto, s, order, pc, c);
    }
  }

  lemma AdapterStepOk(crypto: Crypto, s: Shared, order: Order, pc: AdapterPc, c: Choice)
    requires SharedOk(crypto, s) && AdapterOk(crypto, s.gate, order, pc) && Timely(s.gate, c.response)
    ensures var (s', pc') := AdapterStep(crypto, s, order, pc, c); StepOk(crypto, s, s', Adapter(order, pc'))
  {
    if CallsGate(pc) {
      AdapterCallOk(crypto, s, order, pc, c);
    } else {
      AdapterWriteOk(crypto, s, order, pc, c);
      AdapterAfterWriteOk(crypto, s, order, pc, c);
    }
  }

  lemma IndexerWriteOk(crypto: Crypto, s: Shared, name: Str, contractId: Str, pc: IndexerPc, c: Choice)
    requires SharedOk(crypto, s) && IndexerOk(crypto, s.gate, pc) && PageIsReal(s.gate, c.page)
    ensures var s' := IndexerStep(s, name, contractId, pc, c).0; s'.gate == s.gate && Backed(crypto, s.gate, s'.store)
  {
    var g, store := s.gate, s.store;
    match pc {
      case StoreEvent(queue, _, _, _) =>
        if queue != [] {
          assert queue[0] in queue;
          EventStaysBacked(crypto, g, store, queue[0]);
        }
      case MarkProof(queue, _, _, _) =>
        assert queue[0] in queue;
        ClosingEventTells(crypto, g, queue[0].id);
        var e := queue[0].logged;
        var status := StatusByEvent(e.event);
        if status.Some? {
          StatusStaysBacked(crypto, g, store, S.Subject(e.event).value, status.value,
                            if status.value.Registered? then Some(e.tx) else None);
        }
      case RecordEventPayment(queue, _, _, _, proof) =>
        assert queue[0] in queue;
        assert SettledAt(g.history.log, queue[0].id, IdOf(crypto, proof.payableId), queue[0].logged.tx,
                         queue[0].logged.ledger);
        RecordStaysBacked(crypto, g, store, RecordFromEvent(proof, contractId, queue[0]));
      case MarkProofPaid(queue, _, _, _, _) =>
        assert queue[0] in queue;
        ClosingEventTells(crypto, g, queue[0].id);
        StatusStaysBacked(crypto, g, store, S.Subject(queue[0].logged.event).value, S.Settled, None);
      case _ =>
    }
  }

  lemma FindProofOk(crypto: Crypto, s: Shared, name: Str, contractId: Str, pc: IndexerPc, c: Choice)
    requires SharedOk(crypto, s) && IndexerOk(crypto, s.gate, pc) && PageIsReal(s.gate, c.page) && pc.FindProof?
    ensures IndexerOk(crypto, s.gate, IndexerStep(s, name, contractId, pc, c).1)
  {
    var id := S.Subject(pc.queue[0].logged.event).value;
    if id in s.store.proofs {
      assert ProofBacked(crypto, s.gate, id, s.store.proofs[id]);
    }
  }

  lemma IndexerAfterOk(crypto: Crypto, s: Shared, name: Str, contractId: Str, pc: IndexerPc, c: Choice)
    requires SharedOk(crypto, s) && IndexerOk(crypto, s.gate, pc) && PageIsReal(s.gate, c.page)
    ensures IndexerOk(crypto, s.gate, IndexerStep(s, name, contractId, pc, c).1)
  {
    if pc.FindProof? {
      FindProofOk(crypto, s, name, contractId, pc, c);
    }
  }

  lemma SweepStepOk(crypto: Crypto, s: Shared, pc: SweepPc, c: Choice)
    requires SharedOk(crypto, s) && SweepOk(s.gate, pc) && Timely(s.gate, c.response)
    ensures var (s', pc') := SweepStep(s, pc, c); StepOk(crypto, s, s', Sweeper(pc'))
  {
    match pc {
      case ExpireLapsed(ids) =>
        ExpireCallKeepsGate(crypto, s.gate, c.response, ids);
        BackingStays(crypto, s.gate, SubmitExpireBatch(s.gate, c.response, ids).0, s.store);
      case MarkSwept(status, ids) => StatusStaysBacked(crypto, s.gate, s.store, ids[0], status, None);
      case _ =>
    }
  }

  lemma RevokeStepOk(crypto: Crypto, s: Shared, pc: RevokePc, c: Choice)
    requires SharedOk(crypto, s) && RevokeOk(s.gate, pc) && Timely(s.gate, c.response)
    ensures var (s', pc') := RevokeStep(crypto, s, pc, c); StepOk(crypto, s, s', Revoker(pc'))
  {
    match pc {
      case RevokeOnChain(id, reason, signatures) =>
        RevokeCallKeepsGate(crypto, s.gate, c.response, id, reason, signatures);
        BackingStays(crypto, s.gate, SubmitRevoke(crypto, s.gate, c.response, id, reason, signatures).0, s.store);
      case MarkRevoked(id) => StatusStaysBacked(crypto, s.gate, s.store, id, S.Revoked, None);
      case RevokeDone =>
    }
  }

  // ------------------------------------------------------------------- worlds

  datatype World = World(shared: Shared, processes: map<nat, Process>)

  /** Everything that can happen next; a crash is a process that never takes another step. */
  datatype Action =
    | Start(p: nat, process: Process)
    | Advance(p: nat, choice: Choice)
    | Crash(p: nat)
    | CallByAnyone(env: Env, call: Call)
    | TokenMoves(balances: map<Address, nat>)

  predicate Fresh(process: Process) {
    match process
    case Adapter(order, pc) => pc == RememberProof
    case Indexer(_, _, pc) => pc.Fetch?
    case Sweeper(pc) => pc == ListLapsed
    case Revoker(pc) => pc.RevokeOnChain?
  }

  ghost predicate ProcessStep(crypto: Crypto, s: Shared, s': Shared, p: Process, p': Process, c: Choice) {
    Timely(s.gate, c.response) && PageIsReal(s.gate, c.page)
    && match p
       case Adapter(order, pc) =>
         Sane(s.gate) && order.terms.status.Ready?
         && p'.Adapter? && p'.order == order && (s', p'.settle) == AdapterStep(crypto, s, order, pc, c)
       case Indexer(name, contractId, pc) =>
         IndexerOk(crypto, s.gate, pc)
         && p' == Indexer(name, contractId, IndexerStep(s, name, contractId, pc, c).1)
         && s' == IndexerStep(s, name, contractId, pc, c).0
       case Sweeper(pc) =>
         Sane(s.gate) && SweepOk(s.gate, pc)
         && (pc.ListLapsed? ==> IsLapsedListing(s.store, c.localNow, c.ids))
         && p'.Sweeper? && (s', p'.sweep) == SweepStep(s, pc, c)
       case Revoker(pc) => Sane(s.gate) && p'.Revoker? && (s', p'.revoke) == RevokeStep(crypto, s, pc, c)
  }

  ghost predicate Acts(crypto: Crypto, w: World, w': World, a: Action) {
    match a
    case Start(p, process) =>
      p !in w.processes && Fresh(process) && (process.Adapter? ==> OrderOk(crypto, process.order))
      && w' == w.(processes := w.processes[p := process])
    case Advance(p, c) =>
      p in w.processes && p in w'.processes && w'.processes == w.processes[p := w'.processes[p]]
      && ProcessStep(crypto, w.shared, w'.shared, w.processes[p], w'.processes[p], c)
    case Crash(p) => w' == w.(processes := w.processes - {p})
    case CallByAnyone(env, call) =>
      w' == w.(shared := w.shared.(gate := w'.shared.gate))
        && InvokeStep(crypto, w.shared.gate, w'.shared.gate, env, call)
    case TokenMoves(balances) =>
      w' == w.(shared := w.shared.(gate := w'.shared.gate)) && OutsideStep(w.shared.gate, w'.shared.gate, balances)
  }

  ghost predicate WorldOk(crypto: Crypto, w: World) {
    SharedOk(crypto, w.shared)
    && forall p :: p in w.processes ==> ProcessOk(crypto, w.shared.gate, w.processes[p])
  }

  lemma ProcessStepOk(crypto: Crypto, s: Shared, s': Shared, p: Process, p': Process, c: Choice)
    requires SharedOk(crypto, s) && ProcessOk(crypto, s.gate, p) && ProcessStep(crypto, s, s', p, p', c)
    ensures StepOk(crypto, s, s', p')
  {
    match p {
      case Adapter(order, pc) => AdapterStepOk(crypto, s, order, pc, c);
      case Indexer(name, contractId, pc) =>
        IndexerWriteOk(crypto, s, name, contractId, pc, c);
        IndexerAfterOk(crypto, s, name, contractId, pc, c);
      case Sweeper(pc) => SweepStepOk(crypto, s, pc, c);
      case Revoker(pc) => RevokeStepOk(crypto, s, pc, c);
    }
  }

  lemma OthersStillKnow(crypto: Crypto, w: World, w': World)
    requires forall p :: p in w.processes ==> ProcessOk(crypto, w.shared.gate, w.processes[p])
    requires Advances(w.shared.gate, w'.shared.gate)
    requires forall p :: p in w'.processes ==>
               (p in w.processes && w'.processes[p] == w.processes[p])
                 || ProcessOk(crypto, w'.shared.gate, w'.processes[p])
    ensures forall p :: p in w'.processes ==> ProcessOk(crypto, w'.shared.gate, w'.processes[p])
  {
    forall p | p in w'.processes ensures ProcessOk(crypto, w'.shared.gate, w'.processes[p]) {
      if p in w.processes && w'.processes[p] == w.processes[p] {
        KnowledgeStays(crypto, w.shared.gate, w'.shared.gate, w.processes[p]);
      }
    }
  }

  lemma GateMovesOk(crypto: Crypto, s: Shared, g': Gate)
    requires SharedOk(crypto, s) && Step(crypto, s.gate, g')
    ensures SharedOk(crypto, s.(gate := g')) && Advances(s.gate, g')
  {
    StepKeepsInv(crypto, s.gate, g');
    InvIsSane(crypto, g');
    BackingStays(crypto, s.gate, g', s.store);
  }

  /** No action of anyone breaks what holds of the world. */
  lemma ActionKeepsWorldOk(crypto: Crypto, w: World, w': World, a: Action)
    requires WorldOk(crypto, w) && Acts(crypto, w, w', a)
    ensures WorldOk(crypto, w') && Advances(w.shared.gate, w'.shared.gate)
  {
    match a {
      case Advance(p, c) => ProcessStepOk(crypto, w.shared, w'.shared, w.processes[p], w'.processes[p], c);
      case CallByAnyone(env, call) => GateMovesOk(crypto, w.shared, w'.shared.gate);
      case TokenMoves(balances) => GateMovesOk(crypto, w.shared, w'.shared.gate);
      case _ =>
    }
    OthersStillKnow(crypto, w, w');
  }

  ghost predicate WorldStep(crypto: Crypto, w: World, w': World) {
    exists a :: Acts(crypto, w, w', a)
  }

  ghost predicate WorldStepAt(crypto: Crypto, trace: seq<World>, i: nat)
    requires 0 < i < |trace|
  {
    WorldStep(crypto, trace[i - 1], trace[i])
  }

  ghost predicate WorldRun(crypto: Crypto, trace: seq<World>) {
    trace != [] && trace[0] == World(Shared(NewGate(trace[0].shared.gate.self), S.EMPTY), map[])
    && forall i: nat :: 0 < i < |trace| ==> WorldStepAt(crypto, trace, i)
  }

  lemma WorldRunStepOk(crypto: Crypto, trace: seq<World>, i: nat)
    requires WorldRun(crypto, trace) && 0 < i < |trace| && WorldOk(crypto, trace[i - 1])
    ensures WorldOk(crypto, trace[i])
  {
    assert WorldStepAt(crypto, trace, i);
    var a :| Acts(crypto, trace[i - 1], trace[i], a);
    ActionKeepsWorldOk(crypto, trace[i - 1], trace[i], a);
  }

  lemma {:induction false} WorldRunOk(crypto: Crypto, trace: seq<World>, i: nat)
    requires WorldRun(crypto, trace) && i < |trace|
    ensures WorldOk(crypto, trace[i])
  {
    if i == 0 {
      NewGateInv(crypto, trace[0].shared.gate.self);
      InvIsSane(crypto, trace[0].shared.gate);
    } else {
      WorldRunOk(crypto, trace, i - 1);
      WorldRunStepOk(crypto, trace, i);
    }
  }

  ghost predicate ReachableWorld(crypto: Crypto, w: World) {
    exists trace: seq<World> :: WorldRun(crypto, trace) && w == trace[|trace| - 1]
  }

  lemma ReachableWorldOk(crypto: Crypto, w: World)
    requires ReachableWorld(crypto, w)
    ensures WorldOk(crypto, w)
  {
    var trace: seq<World> :| WorldRun(crypto, trace) && w == trace[|trace| - 1];
    WorldRunOk(crypto, trace, |trace| - 1);
  }

  // ------------------------------------------------------------------ theorems

  /** How often the gate has paid an id. */
  function TimesPaid(payments: seq<Payment>, id: Bytes32): nat {
    if payments == [] then 0
    else
      var n := |payments| - 1;
      TimesPaid(payments[..n], id) + if payments[n].id == id then 1 else 0
  }

  lemma {:induction false} TimesPaidIs(payments: seq<Payment>, id: Bytes32)
    requires forall j, k :: 0 <= j < k < |payments| ==> payments[j].id != payments[k].id
    ensures TimesPaid(payments, id) == if exists k :: 0 <= k < |payments| && payments[k].id == id then 1 else 0
  {
    if payments != [] {
      var n := |payments| - 1;
      TimesPaidIs(payments[..n], id);
      assert forall k :: 0 <= k < n ==> payments[..n][k] == payments[k];
      if payments[n].id != id && exists k :: 0 <= k < |payments| && payments[k].id == id {
        var k :| 0 <= k < |payments| && payments[k].id == id;
        assert payments[..n][k].id == id;
      }
    }
  }

  lemma PaidExactlyOnce(crypto: Crypto, g: Gate, id: Bytes32)
    requires Inv(crypto, g)
    ensures TimesPaid(g.history.payments, id) == if Has(g, id, Settled) then 1 else 0
    ensures Has(g, id, Settled) ==>
            exists k :: 0 <= k < |g.history.payments| && PaymentOf(g.history.payments[k], id, g.payables[id])
  {
    assert Holds(Payments, crypto, g);
    TimesPaidIs(g.history.payments, id);
    if Has(g, id, Settled) {
      assert PaymentOf(g.history.payments[g.history.paid[id]], id, g.payables[id]);
    }
  }

  /** Nobody is ever paid twice for one payable, whatever crashes, races or lost responses there were. */
  lemma NeverPaidTwice(crypto: Crypto, w: World, id: Bytes32)
    requires ReachableWorld(crypto, w)
    ensures TimesPaid(w.shared.gate.history.payments, id) <= 1
  {
    ReachableWorldOk(crypto, w);
    PaidExactlyOnce(crypto, w.shared.gate, id);
  }

  lemma AdapterKnows(crypto: Crypto, w: World, p: nat)
    requires ReachableWorld(crypto, w) && p in w.processes && w.processes[p].Adapter?
    ensures Inv(crypto, w.shared.gate) && AdapterOk(crypto, w.shared.gate, w.processes[p].order, w.processes[p].settle)
  {
    ReachableWorldOk(crypto, w);
    assert ProcessOk(crypto, w.shared.gate, w.processes[p]);
  }

  /** The gate's one payment for the order: its recipient, its amount. */
  ghost predicate PaysTheOrder(payments: seq<Payment>, order: Order) {
    TimesPaid(payments, order.idHash) == 1
    && exists k :: 0 <= k < |payments| && payments[k].id == order.idHash
         && payments[k].to == order.terms.recipient && payments[k].amount == order.terms.amount
  }

  lemma PaidOnTheseTerms(crypto: Crypto, g: Gate, order: Order, t: Receipt)
    requires Inv(crypto, g) && TermsOnChain(g, order) && PaidIn(g, order.idHash, t.tx, t.ledger)
    ensures PaysTheOrder(g.history.payments, order)
  {
    PaidMeansSettled(crypto, g, order.idHash, t.tx, t.ledger);
    PaidExactlyOnce(crypto, g, order.idHash);
    var k :| 0 <= k < |g.history.payments| && PaymentOf(g.history.payments[k], order.idHash, g.payables[order.idHash]);
    assert g.history.payments[k].to == order.terms.recipient;
  }

  /** A run that reports SETTLED: exactly one payment for the id exists, to the proof's recipient, of the
      proof's amount, in the reported transaction and ledger. */
  lemma SettledMeansPaidOnce(crypto: Crypto, w: World, p: nat, order: Order, registerTx: Option<Receipt>, t: Receipt)
    requires ReachableWorld(crypto, w) && p in w.processes
             && w.processes[p] == Adapter(order, Finished(PaidNow(registerTx, t)))
    ensures PaysTheOrder(w.shared.gate.history.payments, order) && PaidIn(w.shared.gate, order.idHash, t.tx, t.ledger)
  {
    AdapterKnows(crypto, w, p);
    PaidOnTheseTerms(crypto, w.shared.gate, order, t);
  }

  /** A run that reports ALREADY_SETTLED: exactly one payment for the id exists, and a record it returns
      names the transaction that made it. */
  lemma AlreadySettledMeansPaidOnce(crypto: Crypto, w: World, p: nat, order: Order, record: Option<S.SettlementRecord>)
    requires ReachableWorld(crypto, w) && p in w.processes
             && w.processes[p] == Adapter(order, Finished(AlreadyPaid(record)))
    ensures TimesPaid(w.shared.gate.history.payments, order.idHash) == 1
    ensures record.Some? ==> PaidIn(w.shared.gate, order.idHash, record.value.tx, record.value.ledger)
  {
    AdapterKnows(crypto, w, p);
    PaidExactlyOnce(crypto, w.shared.gate, order.idHash);
  }

  /** Every claim the store makes is true on-chain, in every interleaving. */
  lemma StoreNeverOverclaims(crypto: Crypto, w: World)
    requires ReachableWorld(crypto, w)
    ensures forall id :: id in w.shared.store.proofs ==>
            StatusBacked(w.shared.gate, id, w.shared.store.proofs[id].status)
    ensures forall p :: p in w.shared.store.settlements ==>
              var r := w.shared.store.settlements[p];
              TimesPaid(w.shared.gate.history.payments, IdOf(crypto, p)) == 1
              && Has(w.shared.gate, IdOf(crypto, p), Settled)
              && PaidIn(w.shared.gate, IdOf(crypto, p), r.tx, r.ledger)
  {
    ReachableWorldOk(crypto, w);
    var g, store := w.shared.gate, w.shared.store;
    forall id | id in store.proofs ensures StatusBacked(g, id, store.proofs[id].status) {
      assert ProofBacked(crypto, g, id, store.proofs[id]);
    }
    forall p | p in store.settlements
      ensures TimesPaid(g.history.payments, IdOf(crypto, p)) == 1 && Has(g, IdOf(crypto, p), Settled)
              && PaidIn(g, IdOf(crypto, p), store.settlements[p].tx, store.settlements[p].ledger)
    {
      assert RecordBacked(crypto, g, p, store.settlements[p]);
      PaidMeansSettled(crypto, g, IdOf(crypto, p), store.settlements[p].tx, store.settlements[p].ledger);
      PaidExactlyOnce(crypto, g, IdOf(crypto, p));
    }
  }
}
