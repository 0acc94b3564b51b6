/** That `settle` ends, what a retry recovers while others act, and what an undisturbed run pays. */
module ProtocolRecovery {
  import opened Primitives
  import opened GateSpec
  import opened GateInvariants
  import opened GateTheorems
  import opened Protocol
  import opened ProtocolSafety
  import S = SettlementStore

  datatype Moment = Moment(shared: Shared, pc: AdapterPc)

  ghost predicate Next(crypto: Crypto, order: Order, m: Moment, m': Moment, c: Choice) {
    Sane(m.shared.gate) && order.terms.status.Ready? && Timely(m.shared.gate, c.response)
    && (m'.shared, m'.pc) == AdapterStep(crypto, m.shared, order, m.pc, c)
  }

  ghost predicate NextAt(crypto: Crypto, order: Order, run: seq<Moment>, cs: seq<Choice>, i: nat)
    requires i < |cs| && |run| == |cs| + 1
  {
    Next(crypto, order, run[i], run[i + 1], cs[i])
  }

  /** A run of `settle` with nobody else acting in between. */
  ghost predicate Undisturbed(crypto: Crypto, order: Order, run: seq<Moment>, cs: seq<Choice>) {
    |run| == |cs| + 1 && run[0].pc == RememberProof
    && forall i: nat :: i < |cs| ==> NextAt(crypto, order, run, cs, i)
  }

  // --------------------------------------------------------------- termination

  const LONGEST_RUN: nat := 14

  /** How many awaits can still follow. */
  function Rank(pc: AdapterPc): nat {
    match pc
    case RememberProof => 14
    case StoreProof => 13
    case ReadChain => 12
    case RegisterOnChain => 11
    case ReadAgain(_) => 10
    case MarkRegistered(_, _) => 9
    case SettleOnChain(_) => 8
    case ReadAfterNotReady => 7
    case MarkAlready => 6
    case LookUpRecord => 5
    case LookUpEvent => 4
    case RebuildRecord(_) => 3
    case RebuildFingerprint(_) => 2
    case LookUpAgain => 1
    case RecordPayment(_, _) => 3
    case MarkPaid(_, _) => 2
    case RememberFingerprint(_, _) => 1
    case MarkClosed(_) => 1
    case Finished(_) => 0
  }

  lemma CallLowersRank(crypto: Crypto, order: Order, m: Moment, m': Moment, c: Choice)
    requires Next(crypto, order, m, m', c) && CallsGate(m.pc)
    ensures Rank(m'.pc) < Rank(m.pc)
  {
  }

  lemma ReadLowersRank(crypto: Crypto, order: Order, m: Moment, m': Moment, c: Choice)
    requires Next(crypto, order, m, m', c) && !CallsGate(m.pc)
    ensures Rank(m'.pc) < Rank(m.pc) || (Rank(m.pc) == 0 && m' == m)
  {
    if LooksUp(m.pc) {
      LookUpLowersRank(crypto, order, m, m', c);
    }
  }

  lemma LookUpLowersRank(crypto: Crypto, order: Order, m: Moment, m': Moment, c: Choice)
    requires Next(crypto, order, m, m', c) && LooksUp(m.pc)
    ensures Rank(m'.pc) < Rank(m.pc)
  {
  }

  lemma StepLowersRank(crypto: Crypto, order: Order, m: Moment, m': Moment, c: Choice)
    requires Next(crypto, order, m, m', c)
    ensures Rank(m'.pc) < Rank(m.pc) || (Rank(m.pc) == 0 && m' == m)
  {
    if CallsGate(m.pc) {
      CallLowersRank(crypto, order, m, m', c);
    } else {
      ReadLowersRank(crypto, order, m, m', c);
    }
  }

  lemma AwaitLowersRank(crypto: Crypto, order: Order, run: seq<Moment>, cs: seq<Choice>, i: nat)
    requires Undisturbed(crypto, order, run, cs) && i < |cs|
    ensures Rank(run[i + 1].pc) < Rank(run[i].pc) || (Rank(run[i].pc) == 0 && run[i + 1] == run[i])
  {
    assert NextAt(crypto, order, run, cs, i);
    StepLowersRank(crypto, order, run[i], run[i + 1], cs[i]);
  }

  lemma {:induction false} RunLowersRank(crypto: Crypto, order: Order, run: seq<Moment>, cs: seq<Choice>, i: nat)
    requires Undisturbed(crypto, order, run, cs) && i <= |cs|
    ensures Rank(run[i].pc) == 0 || Rank(run[i].pc) + i <= LONGEST_RUN
  {
    if i > 0 {
      RunLowersRank(crypto, order, run, cs, i - 1);
      AwaitLowersRank(crypto, order, run, cs, i - 1);
    }
  }

  lemma UndisturbedRunFinishes(crypto: Crypto, order: Order, run: seq<Moment>, cs: seq<Choice>)
    requires Undisturbed(crypto, order, run, cs) && |cs| >= LONGEST_RUN
    ensures run[|cs|].pc.Finished?
  {
    RunLowersRank(crypto, order, run, cs, |cs|);
  }

  // ------------------------------------------------- a run while others act

  ghost predicate ActionAt(crypto: Crypto, trace: seq<World>, actions: seq<Action>, i: nat)
    requires i < |actions| && |trace| == |actions| + 1
  {
    Acts(crypto, trace[i], trace[i + 1], actions[i])
  }

  /** These actions, by anyone, lead through these worlds. */
  ghost predicate Unfolds(crypto: Crypto, trace: seq<World>, actions: seq<Action>) {
    |trace| == |actions| + 1 && forall i: nat :: i < |actions| ==> ActionAt(crypto, trace, actions, i)
  }

  predicate Survives(actions: seq<Action>, p: nat) {
    Crash(p) !in actions
  }

  predicate Runs(w: World, p: nat, order: Order) {
    p in w.processes && w.processes[p].Adapter? && w.processes[p].order == order
  }

  function PcOf(w: World, p: nat): AdapterPc
    requires p in w.processes && w.processes[p].Adapter?
  {
    w.processes[p].settle
  }

  /** How many of these actions are process p's own awaits. */
  function Turns(actions: seq<Action>, p: nat): nat {
    if actions == [] then 0
    else
      var n := |actions| - 1;
      Turns(actions[..n], p) + if actions[n].Advance? && actions[n].p == p then 1 else 0
  }

  ghost predicate OwnStep(crypto: Crypto, w: World, w': World, a: Action, p: nat, order: Order)
    requires Runs(w, p, order) && Runs(w', p, order)
  {
    a.Advance? && Next(crypto, order, Moment(w.shared, PcOf(w, p)), Moment(w'.shared, PcOf(w', p)), a.choice)
  }

  /** Its own await moves it on; nobody else touches it. */
  lemma AdapterMoves(crypto: Crypto, w: World, w': World, a: Action, p: nat, order: Order)
    requires Acts(crypto, w, w', a) && a != Crash(p) && Runs(w, p, order)
    ensures Runs(w', p, order)
    ensures if a.Advance? && a.p == p then OwnStep(crypto, w, w', a, p, order) else PcOf(w', p) == PcOf(w, p)
  {
  }

  lemma TurnLowersRank(crypto: Crypto, trace: seq<World>, actions: seq<Action>, p: nat, order: Order, i: nat)
    requires Unfolds(crypto, trace, actions) && Survives(actions, p) && i < |actions| && Runs(trace[i], p, order)
    ensures Runs(trace[i + 1], p, order)
    ensures var was, now := Rank(PcOf(trace[i], p)), Rank(PcOf(trace[i + 1], p));
            now + (if actions[i].Advance? && actions[i].p == p then 1 else 0) <= was || (was == 0 && now == 0)
  {
    assert ActionAt(crypto, trace, actions, i);
    AdapterMoves(crypto, trace[i], trace[i + 1], actions[i], p, order);
    if actions[i].Advance? && actions[i].p == p {
      StepLowersRank(crypto, order, Moment(trace[i].shared, PcOf(trace[i], p)),
                     Moment(trace[i + 1].shared, PcOf(trace[i + 1], p)), actions[i].choice);
    }
  }

  lemma {:induction false} TurnsLowerRank(crypto: Crypto, trace: seq<World>, actions: seq<Action>, p: nat,
                                          order: Order, i: nat)
    requires Unfolds(crypto, trace, actions) && Survives(actions, p) && i <= |actions| && Runs(trace[0], p, order)
    ensures Runs(trace[i], p, order)
    ensures Rank(PcOf(trace[i], p)) == 0 || Rank(PcOf(trace[i], p)) + Turns(actions[..i], p) <= LONGEST_RUN
  {
    if i > 0 {
      TurnsLowerRank(crypto, trace, actions, p, order, i - 1);
      TurnLowersRank(crypto, trace, actions, p, order, i - 1);
      assert actions[..i][..i - 1] == actions[..i - 1];
    }
  }

  /** `settle` never waits more than fourteen times, whatever the network answers and whatever anyone else does
      in between. */
  lemma SettleTerminates(crypto: Crypto, trace: seq<World>, actions: seq<Action>, p: nat, order: Order)
    requires Unfolds(crypto, trace, actions) && Survives(actions, p) && Runs(trace[0], p, order)
    requires Turns(actions, p) >= LONGEST_RUN
    ensures Runs(trace[|actions|], p, order) && PcOf(trace[|actions|], p).Finished?
  {
    TurnsLowerRank(crypto, trace, actions, p, order, |actions|);
    assert actions[..|actions|] == actions;
  }

  // ------------------------------------------------------------------ recovery

  ghost predicate EventStored(s: S.Store, id: Bytes32) {
    exists i :: i in s.events && S.IsSettlementOf(s.events[i], id)
  }

  ghost predicate Recorded(s: Shared, order: Order) {
    order.payableId in s.store.settlements
  }

  /** The awaits a run passes through once the chain shows SETTLED and the event is stored. */
  ghost predicate Recovering(s: Shared, order: Order, pc: AdapterPc) {
    EventStored(s.store, order.idHash) && Has(s.gate, order.idHash, Settled)
    && match pc
       case RememberProof => true
       case StoreProof => true
       case ReadChain => true
       case MarkAlready => true
       case LookUpRecord => true
       case LookUpEvent => true
       case RebuildRecord(_) => true
       case RebuildFingerprint(_) => Recorded(s, order)
       case LookUpAgain => Recorded(s, order)
       case Finished(_) => Recorded(s, order) && pc == AlreadyOutcome(Some(s.store.settlements[order.payableId]))
       case _ => false
  }

  /** Events and records, once stored, stay as they are. */
  ghost predicate StoreGrows(s: S.Store, s': S.Store) {
    (forall i :: i in s.events ==> i in s'.events && s'.events[i] == s.events[i])
    && forall p :: p in s.settlements ==> p in s'.settlements && s'.settlements[p] == s.settlements[p]
  }

  lemma AdapterGrowsStore(crypto: Crypto, s: Shared, order: Order, pc: AdapterPc, c: Choice)
    requires Sane(s.gate) && order.terms.status.Ready?
    ensures StoreGrows(s.store, AdapterStep(crypto, s, order, pc, c).0.store)
  {
  }

  lemma IndexerGrowsStore(crypto: Crypto, s: Shared, name: Str, contractId: Str, pc: IndexerPc, c: Choice)
    requires IndexerOk(crypto, s.gate, pc) && PageIsReal(s.gate, c.page)
    ensures StoreGrows(s.store, IndexerStep(s, name, contractId, pc, c).0.store)
  {
  }

  lemma ActionGrowsStore(crypto: Crypto, w: World, w': World, a: Action)
    requires Acts(crypto, w, w', a)
    ensures StoreGrows(w.shared.store, w'.shared.store)
  {
    if a.Advance? {
      match w.processes[a.p] {
        case Adapter(order, pc) => AdapterGrowsStore(crypto, w.shared, order, pc, a.choice);
        case Indexer(name, contractId, pc) => IndexerGrowsStore(crypto, w.shared, name, contractId, pc, a.choice);
        case _ =>
      }
    }
  }

  lemma OthersLetItRecover(s: Shared, s': Shared, order: Order, pc: AdapterPc)
    requires Recovering(s, order, pc) && StoreGrows(s.store, s'.store) && Advances(s.gate, s'.gate)
    ensures Recovering(s', order, pc)
  {
    FactsStay(s.gate, s'.gate, order.idHash);
    var i :| i in s.store.events && S.IsSettlementOf(s.store.events[i], order.idHash);
    assert S.IsSettlementOf(s'.store.events[i], order.idHash);
  }

  lemma OwnAwaitRecovers(crypto: Crypto, s: Shared, order: Order, pc: AdapterPc, c: Choice)
    requires Sane(s.gate) && order.terms.status.Ready? && Recovering(s, order, pc)
    ensures var (s', pc') := AdapterStep(crypto, s, order, pc, c);
            s'.gate == s.gate && s'.store.events == s.store.events && Recovering(s', order, pc') && !CallsGate(pc')
  {
    if pc.LookUpEvent? {
      var i :| i in s.store.events && S.IsSettlementOf(s.store.events[i], order.idHash);
      assert S.FindSettlementEvent(s.store, order.idHash).Some?;
    }
  }

  ghost predicate RecoveringAt(w: World, p: nat, order: Order) {
    Runs(w, p, order) && Recovering(w.shared, order, PcOf(w, p))
  }

  lemma RecoveryAction(crypto: Crypto, w: World, w': World, a: Action, p: nat, order: Order)
    requires WorldOk(crypto, w) && Acts(crypto, w, w', a) && a != Crash(p) && RecoveringAt(w, p, order)
    ensures RecoveringAt(w', p, order)
    ensures a.Advance? && a.p == p ==> w'.shared.gate == w.shared.gate
  {
    AdapterMoves(crypto, w, w', a, p, order);
    if a.Advance? && a.p == p {
      OwnAwaitRecovers(crypto, w.shared, order, PcOf(w, p), a.choice);
    } else {
      ActionKeepsWorldOk(crypto, w, w', a);
      ActionGrowsStore(crypto, w, w', a);
      OthersLetItRecover(w.shared, w'.shared, order, PcOf(w, p));
    }
  }

  lemma {:induction false} WorldsStayOk(crypto: Crypto, trace: seq<World>, actions: seq<Action>, i: nat)
    requires Unfolds(crypto, trace, actions) && WorldOk(crypto, trace[0]) && i <= |actions|
    ensures WorldOk(crypto, trace[i])
  {
    if i > 0 {
      WorldsStayOk(crypto, trace, actions, i - 1);
      WorldStaysOk(crypto, trace, actions, i);
    }
  }

  lemma WorldStaysOk(crypto: Crypto, trace: seq<World>, actions: seq<Action>, i: nat)
    requires Unfolds(crypto, trace, actions) && 0 < i <= |actions| && WorldOk(crypto, trace[i - 1])
    ensures WorldOk(crypto, trace[i])
  {
    assert ActionAt(crypto, trace, actions, i - 1);
    ActionKeepsWorldOk(crypto, trace[i - 1], trace[i], actions[i - 1]);
  }

  lemma {:induction false} StoredStays(crypto: Crypto, trace: seq<World>, actions: seq<Action>, k: nat, i: nat)
    requires Unfolds(crypto, trace, actions) && i <= |actions| && k in trace[0].shared.store.events
    ensures k in trace[i].shared.store.events && trace[i].shared.store.events[k] == trace[0].shared.store.events[k]
  {
    if i > 0 {
      StoredStays(crypto, trace, actions, k, i - 1);
      assert ActionAt(crypto, trace, actions, i - 1);
      ActionGrowsStore(crypto, trace[i - 1], trace[i], actions[i - 1]);
    }
  }

  lemma RecoveryStep(crypto: Crypto, trace: seq<World>, actions: seq<Action>, p: nat, order: Order, i: nat)
    requires Unfolds(crypto, trace, actions) && Survives(actions, p) && 0 < i <= |actions|
    requires WorldOk(crypto, trace[i - 1]) && RecoveringAt(trace[i - 1], p, order)
    ensures RecoveringAt(trace[i], p, order)
  {
    assert ActionAt(crypto, trace, actions, i - 1);
    RecoveryAction(crypto, trace[i - 1], trace[i], actions[i - 1], p, order);
  }

  lemma {:induction false} RecoveryRun(crypto: Crypto, trace: seq<World>, actions: seq<Action>, p: nat,
                                       order: Order, i: nat)
    requires Unfolds(crypto, trace, actions) && Survives(actions, p) && i <= |actions|
    requires WorldOk(crypto, trace[0]) && RecoveringAt(trace[0], p, order)
    ensures RecoveringAt(trace[i], p, order)
  {
    if i > 0 {
      RecoveryRun(crypto, trace, actions, p, order, i - 1);
      WorldsStayOk(crypto, trace, actions, i - 1);
      RecoveryStep(crypto, trace, actions, p, order, i);
    }
  }

  /** None of process p's own awaits moves the gate. */
  ghost predicate LeavesTheGate(trace: seq<World>, actions: seq<Action>, p: nat)
    requires |trace| == |actions| + 1
  {
    forall i :: 0 <= i < |actions| && actions[i].Advance? && actions[i].p == p ==>
      trace[i + 1].shared.gate == trace[i].shared.gate
  }

  lemma RecoveryCallsNobody(crypto: Crypto, trace: seq<World>, actions: seq<Action>, p: nat, order: Order)
    requires Unfolds(crypto, trace, actions) && Survives(actions, p)
    requires WorldOk(crypto, trace[0]) && RecoveringAt(trace[0], p, order)
    ensures LeavesTheGate(trace, actions, p)
  {
    forall i | 0 <= i < |actions| && actions[i].Advance? && actions[i].p == p
      ensures trace[i + 1].shared.gate == trace[i].shared.gate
    {
      WorldsStayOk(crypto, trace, actions, i);
      RecoveryRun(crypto, trace, actions, p, order, i);
      assert ActionAt(crypto, trace, actions, i);
      RecoveryAction(crypto, trace[i], trace[i + 1], actions[i], p, order);
    }
  }

  lemma StoredEventMeansSettled(crypto: Crypto, w: World, id: Bytes32, k: nat)
    requires WorldOk(crypto, w) && k in w.shared.store.events && S.IsSettlementOf(w.shared.store.events[k], id)
    ensures EventStored(w.shared.store, id) && Has(w.shared.gate, id, Settled)
    ensures SettledAt(w.shared.gate.history.log, k, id, w.shared.store.events[k].logged.tx,
                      w.shared.store.events[k].logged.ledger)
  {
    assert Authentic(w.shared.gate, w.shared.store.events[k]);
    ClosingEventTells(crypto, w.shared.gate, k);
  }

  lemma RecordNamesTheEvent(crypto: Crypto, w: World, payableId: Str, k: nat)
    requires WorldOk(crypto, w) && payableId in w.shared.store.settlements
    requires k in w.shared.store.events && S.IsSettlementOf(w.shared.store.events[k], IdOf(crypto, payableId))
    ensures var record, event := w.shared.store.settlements[payableId], w.shared.store.events[k].logged;
            record.tx == event.tx && record.ledger == event.ledger
  {
    var g, record := w.shared.gate, w.shared.store.settlements[payableId];
    StoredEventMeansSettled(crypto, w, IdOf(crypto, payableId), k);
    assert RecordBacked(crypto, g, payableId, record);
    var j: nat :| SettledAt(g.history.log, j, IdOf(crypto, payableId), record.tx, record.ledger);
    OneSettlementEvent(crypto, g, IdOf(crypto, payableId), j, k);
  }

  lemma StartsRecovering(crypto: Crypto, w: World, p: nat, order: Order, k: nat)
    requires WorldOk(crypto, w) && Runs(w, p, order) && PcOf(w, p).RememberProof?
    requires k in w.shared.store.events && S.IsSettlementOf(w.shared.store.events[k], order.idHash)
    ensures RecoveringAt(w, p, order) && OrderOk(crypto, order)
  {
    StoredEventMeansSettled(crypto, w, order.idHash, k);
    assert ProcessOk(crypto, w.shared.gate, w.processes[p]);
  }

  lemma EndsRecovered(crypto: Crypto, w: World, p: nat, order: Order, k: nat)
    requires WorldOk(crypto, w) && RecoveringAt(w, p, order) && PcOf(w, p).Finished? && OrderOk(crypto, order)
    requires k in w.shared.store.events && S.IsSettlementOf(w.shared.store.events[k], order.idHash)
    ensures RecordFound(w, p, order, w.shared.store.events[k].logged)
  {
    RecordNamesTheEvent(crypto, w, order.payableId, k);
  }

  /** The run has ended on a record of the payment this event tells of. */
  predicate RecordFound(w: World, p: nat, order: Order, event: LoggedEvent) {
    Runs(w, p, order) && order.payableId in w.shared.store.settlements
    && var record := w.shared.store.settlements[order.payableId];
       record.tx == event.tx && record.ledger == event.ledger && PcOf(w, p) == AlreadyOutcome(Some(record))
  }

  /** After any history, a run that starts once the payable's settlement event is stored, and that is not itself
      killed, ends with a settlement record naming that event's transaction and ledger, and never moves the gate:
      whatever other processes and callers do meanwhile. */
  lemma RecoveryLeavesTheRecord(crypto: Crypto, trace: seq<World>, actions: seq<Action>, p: nat, order: Order, k: nat)
    requires Unfolds(crypto, trace, actions) && ReachableWorld(crypto, trace[0])
    requires Runs(trace[0], p, order) && PcOf(trace[0], p).RememberProof?
    requires Survives(actions, p) && Turns(actions, p) >= LONGEST_RUN
    requires k in trace[0].shared.store.events && S.IsSettlementOf(trace[0].shared.store.events[k], order.idHash)
    ensures RecordFound(trace[|actions|], p, order, trace[0].shared.store.events[k].logged)
    ensures LeavesTheGate(trace, actions, p)
  {
    ReachableWorldOk(crypto, trace[0]);
    StartsRecovering(crypto, trace[0], p, order, k);
    RecoveryCallsNobody(crypto, trace, actions, p, order);
    var n := |actions|;
    WorldsStayOk(crypto, trace, actions, n);
    RecoveryRun(crypto, trace, actions, p, order, n);
    StoredStays(crypto, trace, actions, k, n);
    SettleTerminates(crypto, trace, actions, p, order);
    EndsRecovered(crypto, trace[n], p, order, k);
  }

  // ------------------------------------------------------------- a run that pays

  /** The gate would pay this order for a call made under this response. */
  ghost predicate Conducive(g: Gate, order: Order, r: Response) {
    r.Answered? && g.config.Some? && !g.config.value.paused && g.config.value.executor in r.env.auth
    && r.env.now <= order.terms.expiry
    && ChargeWindow(g, r.env.now, g.config.value, order.terms.amount).Charged?
    && (if IsVault(g, g.config.value) then r.env.tokenAccepts
        else TransferGoesThrough(g, r.env, g.config.value.payer, order.terms.amount))
  }

  ghost predicate ReadyAsSigned(g: Gate, order: Order) {
    TermsOnChain(g, order) && Has(g, order.idHash, Ready)
  }

  lemma ConduciveSettlePays(crypto: Crypto, g: Gate, order: Order, r: Response)
    requires Inv(crypto, g) && Sane(g) && ReadyAsSigned(g, order) && Conducive(g, order, r) && Timely(g, r)
    ensures var (g', result) := SubmitSettle(g, r, order.idHash);
            result == Submitted(r.env.tx, r.env.ledger) && Has(g', order.idHash, Settled)
  {
    var at := g.(clock := r.env.now);
    if IsVault(g, g.config.value) {
      ClockKeepsInv(crypto, g, r.env.now);
      VaultPaysWhatIsReady(crypto, at, r.env, order.idHash);
    }
  }

  /** Its registration would be accepted for a call made under this response. */
  ghost predicate Registrable(crypto: Crypto, g: Gate, order: Order, r: Response) {
    Sane(g) && order.terms.status.Ready? && r.Answered?
      && Register(crypto, Arriving(g, r), r.env, order.idHash, order.terms, order.signatures).Done?
  }

  lemma RegisteringIsReady(crypto: Crypto, g: Gate, order: Order, r: Response)
    requires Registrable(crypto, g, order, r)
    ensures var (g', result) := SubmitRegister(crypto, g, r, order.idHash, order.terms, order.signatures);
            result.Submitted? && ReadyAsSigned(g', order) && forall q :: Conducive(g, order, q) ==>
              Conducive(g', order, q)
  {
  }

  predicate ProofStored(s: Shared, order: Order) {
    order.idHash in s.store.proofs
  }

  predicate ProofShows(s: Shared, order: Order, status: S.ProofStatus) {
    order.idHash in s.store.proofs && s.store.proofs[order.idHash].status == status
  }

  /** The record tells, each under its own name, what the order and its context say. */
  predicate TellsTheOrder(r: S.SettlementRecord, order: Order) {
    r.payableId == order.payableId && r.invoiceId == order.invoiceId && r.poId == order.poId
    && r.proofHash == order.terms.proofHash && r.contractId == order.contractId && r.asset == order.asset
    && r.amount == order.amount && r.erp == S.Pending
  }

  ghost predicate RecordsTheOrder(s: Shared, order: Order) {
    order.payableId in s.store.settlements && TellsTheOrder(s.store.settlements[order.payableId], order)
  }

  /** So does the stored proof. */
  predicate RemembersTheOrder(s: Shared, order: Order) {
    order.idHash in s.store.proofs
    && var p := s.store.proofs[order.idHash];
       p.payableId == order.payableId && p.idHash == order.idHash && p.proofHash == order.terms.proofHash
       && p.invoiceId == order.invoiceId && p.poId == order.poId && p.vendorId == order.vendorId
       && p.amount == order.unitsText && p.asset == order.asset && p.expiry == order.terms.expiry
  }

  /** The proof is not known yet, or only as signed. */
  predicate NotYetRegistered(s: Shared, order: Order) {
    order.idHash in s.store.proofs ==> s.store.proofs[order.idHash].status == S.Signed
  }

  /** What a run that found the proof unregistered knows of the stored one. */
  predicate Remembering(order: Order, m: Moment) {
    match m.pc
    case RememberProof => NotYetRegistered(m.shared, order)
    case StoreProof => true
    case _ => RemembersTheOrder(m.shared, order)
  }

  /** Before the settle call: everything it needs is in place, or will be once registered. */
  ghost predicate AboutToPay(crypto: Crypto, order: Order, m: Moment, cs: seq<Choice>) {
    SharedOk(crypto, m.shared) && AdapterOk(crypto, m.shared.gate, order, m.pc)
    && (forall c :: c in cs ==> Conducive(m.shared.gate, order, c.response))
    && (m.pc.RememberProof? || m.pc.StoreProof? || ProofStored(m.shared, order))
    && match m.pc
       case RememberProof => Promising(crypto, order, m.shared.gate, cs)
       case StoreProof => Promising(crypto, order, m.shared.gate, cs)
       case ReadChain => Promising(crypto, order, m.shared.gate, cs)
       case RegisterOnChain => !Present(m.shared.gate, order.idHash) && Promising(crypto, order, m.shared.gate, cs)
       case ReadAgain(_) => ReadyAsSigned(m.shared.gate, order)
       case MarkRegistered(_, seen) =>
         ReadyAsSigned(m.shared.gate, order) && seen == m.shared.gate.payables[order.idHash]
       case SettleOnChain(_) => ReadyAsSigned(m.shared.gate, order)
       case _ => false
  }

  ghost predicate Promising(crypto: Crypto, order: Order, g: Gate, cs: seq<Choice>) {
    ReadyAsSigned(g, order)
    || (!Present(g, order.idHash)
        && forall c :: c in cs ==>
             Registrable(crypto, g, order, c.response)
               && order.terms.expiry - c.localNow >= MIN_REMAINING_VALIDITY_SECONDS)
  }

  /** After it: paid, and on the way to being recorded. */
  ghost predicate HasPaid(crypto: Crypto, order: Order, m: Moment) {
    SharedOk(crypto, m.shared) && AdapterOk(crypto, m.shared.gate, order, m.pc)
    && match m.pc
       case RecordPayment(_, t) => ProofStored(m.shared, order) && !Recorded(m.shared, order)
       case MarkPaid(_, t) => ProofStored(m.shared, order) && RecordsTheOrder(m.shared, order)
       case RememberFingerprint(_, t) => ProofShows(m.shared, order, S.Settled) && RecordsTheOrder(m.shared, order)
       case Finished(PaidNow(_, t)) =>
         ProofShows(m.shared, order, S.Settled) && RecordsTheOrder(m.shared, order)
         && order.fingerprint in m.shared.store.fingerprints
       case _ => false
  }

  /** While the payable is READY no record of its settlement can exist. */
  lemma ReadyIsUnrecorded(crypto: Crypto, s: Shared, order: Order)
    requires SharedOk(crypto, s) && OrderOk(crypto, order) && Has(s.gate, order.idHash, Ready)
    ensures !Recorded(s, order)
  {
    if order.payableId in s.store.settlements {
      var r := s.store.settlements[order.payableId];
      assert RecordBacked(crypto, s.gate, order.payableId, r);
      PaidMeansSettled(crypto, s.gate, order.idHash, r.tx, r.ledger);
    }
  }

  lemma RegisteringStep(crypto: Crypto, order: Order, m: Moment, m': Moment, cs: seq<Choice>, c: Choice)
    requires AboutToPay(crypto, order, m, cs) && m.pc.RegisterOnChain? && c in cs && Next(crypto, order, m, m', c)
    ensures AboutToPay(crypto, order, m', cs)
  {
    AdapterCallOk(crypto, m.shared, order, m.pc, c);
    RegisteringIsReady(crypto, m.shared.gate, order, c.response);
  }

  lemma SettlingStep(crypto: Crypto, order: Order, m: Moment, m': Moment, cs: seq<Choice>, c: Choice)
    requires AboutToPay(crypto, order, m, cs) && m.pc.SettleOnChain? && c in cs && Next(crypto, order, m, m', c)
    requires HasContext(order.invoiceId, order.poId)
    ensures HasPaid(crypto, order, m')
  {
    ReadyIsUnrecorded(crypto, m.shared, order);
    AdapterCallOk(crypto, m.shared, order, m.pc, c);
    ConduciveSettlePays(crypto, m.shared.gate, order, c.response);
  }

  lemma ReadingStep(crypto: Crypto, order: Order, m: Moment, m': Moment, cs: seq<Choice>, c: Choice)
    requires AboutToPay(crypto, order, m, cs) && !CallsGate(m.pc) && c in cs && Next(crypto, order, m, m', c)
    ensures AboutToPay(crypto, order, m', cs)
  {
    AdapterStepOk(crypto, m.shared, order, m.pc, c);
    assert m'.shared.gate == m.shared.gate;
  }

  lemma PayingStep(crypto: Crypto, order: Order, m: Moment, m': Moment, cs: seq<Choice>, c: Choice)
    requires AboutToPay(crypto, order, m, cs) && c in cs && Next(crypto, order, m, m', c)
             && HasContext(order.invoiceId, order.poId)
    ensures AboutToPay(crypto, order, m', cs) || HasPaid(crypto, order, m')
  {
    if m.pc.RegisterOnChain? {
      RegisteringStep(crypto, order, m, m', cs, c);
    } else if m.pc.SettleOnChain? {
      SettlingStep(crypto, order, m, m', cs, c);
    } else {
      ReadingStep(crypto, order, m, m', cs, c);
    }
  }

  lemma RecordingStep(crypto: Crypto, order: Order, m: Moment, m': Moment, c: Choice)
    requires HasPaid(crypto, order, m) && Next(crypto, order, m, m', c)
    ensures HasPaid(crypto, order, m')
  {
    AdapterStepOk(crypto, m.shared, order, m.pc, c);
  }

  ghost predicate Paying(crypto: Crypto, order: Order, m: Moment, cs: seq<Choice>) {
    AboutToPay(crypto, order, m, cs) || HasPaid(crypto, order, m)
  }

  lemma PayingAwait(crypto: Crypto, order: Order, run: seq<Moment>, cs: seq<Choice>, i: nat)
    requires Undisturbed(crypto, order, run, cs) && 0 < i <= |cs| && HasContext(order.invoiceId, order.poId)
    requires Paying(crypto, order, run[i - 1], cs)
    ensures Paying(crypto, order, run[i], cs)
  {
    assert NextAt(crypto, order, run, cs, i - 1);
    if HasPaid(crypto, order, run[i - 1]) {
      RecordingStep(crypto, order, run[i - 1], run[i], cs[i - 1]);
    } else {
      PayingStep(crypto, order, run[i - 1], run[i], cs, cs[i - 1]);
    }
  }

  lemma {:induction false} PayingRun(crypto: Crypto, order: Order, run: seq<Moment>, cs: seq<Choice>, i: nat)
    requires Undisturbed(crypto, order, run, cs) && i <= |cs| && HasContext(order.invoiceId, order.poId)
    requires Paying(crypto, order, run[0], cs)
    ensures Paying(crypto, order, run[i], cs)
  {
    if i > 0 {
      PayingRun(crypto, order, run, cs, i - 1);
      PayingAwait(crypto, order, run, cs, i);
    }
  }

  lemma RecordNamesThePayment(crypto: Crypto, s: Shared, order: Order, t: Receipt)
    requires SharedOk(crypto, s) && OrderOk(crypto, order) && Recorded(s, order)
             && PaidIn(s.gate, order.idHash, t.tx, t.ledger)
    ensures s.store.settlements[order.payableId].tx == t.tx && s.store.settlements[order.payableId].ledger == t.ledger
  {
    var log, record := s.gate.history.log, s.store.settlements[order.payableId];
    assert RecordBacked(crypto, s.gate, order.payableId, record);
    var j: nat :| SettledAt(log, j, order.idHash, record.tx, record.ledger);
    var k: nat :| SettledAt(log, k, order.idHash, t.tx, t.ledger);
    OneSettlementEvent(crypto, s.gate, order.idHash, j, k);
  }

  lemma RememberingStep(crypto: Crypto, order: Order, m: Moment, m': Moment, c: Choice)
    requires Remembering(order, m) && Next(crypto, order, m, m', c)
    ensures Remembering(order, m')
  {
    if CallsGate(m.pc) {
      CallLeavesStore(crypto, order, m, m', c);
    } else {
      RememberingRead(crypto, order, m, m', c);
    }
  }

  lemma CallLeavesStore(crypto: Crypto, order: Order, m: Moment, m': Moment, c: Choice)
    requires Next(crypto, order, m, m', c) && CallsGate(m.pc)
    ensures m'.shared.store == m.shared.store && !m'.pc.RememberProof? && !m'.pc.StoreProof?
  {
  }

  lemma RememberingRead(crypto: Crypto, order: Order, m: Moment, m': Moment, c: Choice)
    requires Remembering(order, m) && Next(crypto, order, m, m', c) && !CallsGate(m.pc)
    ensures Remembering(order, m')
  {
    if !m.pc.RememberProof? && !m.pc.StoreProof? {
      ProofsKeepTerms(crypto, order, m, m', c);
    }
  }

  predicate Marks(pc: AdapterPc) {
    pc.MarkClosed? || pc.MarkRegistered? || pc.MarkPaid? || pc.MarkAlready?
  }

  predicate KeepsTerms(proofs: map<Bytes32, S.ProofRecord>, after: map<Bytes32, S.ProofRecord>, id: Bytes32) {
    id in proofs ==>
      id in after && after[id] == proofs[id].(status := after[id].status, registerTx := after[id].registerTx)
  }

  /** Past remembering it, an await changes nothing of a stored proof but its status and registering transaction. */
  lemma ProofsKeepTerms(crypto: Crypto, order: Order, m: Moment, m': Moment, c: Choice)
    requires Next(crypto, order, m, m', c) && !CallsGate(m.pc) && !m.pc.RememberProof? && !m.pc.StoreProof?
    ensures !m'.pc.RememberProof? && !m'.pc.StoreProof?
    ensures KeepsTerms(m.shared.store.proofs, m'.shared.store.proofs, order.idHash)
  {
    if Marks(m.pc) {
      MarksKeepTerms(crypto, order, m, m', c);
    } else {
      OthersLeaveProofs(crypto, order, m, m', c);
    }
  }

  lemma MarksKeepTerms(crypto: Crypto, order: Order, m: Moment, m': Moment, c: Choice)
    requires Next(crypto, order, m, m', c) && Marks(m.pc)
    ensures !m'.pc.RememberProof? && !m'.pc.StoreProof?
    ensures KeepsTerms(m.shared.store.proofs, m'.shared.store.proofs, order.idHash)
  {
  }

  lemma OthersLeaveProofs(crypto: Crypto, order: Order, m: Moment, m': Moment, c: Choice)
    requires Next(crypto, order, m, m', c) && !CallsGate(m.pc) && !Marks(m.pc)
    requires !m.pc.RememberProof? && !m.pc.StoreProof?
    ensures !m'.pc.RememberProof? && !m'.pc.StoreProof? && m'.shared.store.proofs == m.shared.store.proofs
  {
  }

  lemma {:induction false} RememberingRun(crypto: Crypto, order: Order, run: seq<Moment>, cs: seq<Choice>, i: nat)
    requires Undisturbed(crypto, order, run, cs) && i <= |cs| && Remembering(order, run[0])
    ensures Remembering(order, run[i])
  {
    if i > 0 {
      RememberingRun(crypto, order, run, cs, i - 1);
      assert NextAt(crypto, order, run, cs, i - 1);
      RememberingStep(crypto, order, run[i - 1], run[i], cs[i - 1]);
    }
  }

  /** Paid once, as signed; the record tells the order and names the payment's transaction and ledger; the proof
      shows SETTLED and the invoice is known as paid. */
  ghost predicate PaidAndRecorded(m: Moment, order: Order) {
    m.pc.Finished? && m.pc.result.PaidNow?
    && PaysTheOrder(m.shared.gate.history.payments, order)
    && ProofShows(m.shared, order, S.Settled) && RecordsTheOrder(m.shared, order)
    && order.fingerprint in m.shared.store.fingerprints
    && var record, t := m.shared.store.settlements[order.payableId], m.pc.result.settleTx;
       record.tx == t.tx && record.ledger == t.ledger && PaidIn(m.shared.gate, order.idHash, t.tx, t.ledger)
  }

  lemma EndsPaid(crypto: Crypto, order: Order, m: Moment)
    requires HasPaid(crypto, order, m) && m.pc.Finished?
    ensures PaidAndRecorded(m, order)
  {
    PaidOnTheseTerms(crypto, m.shared.gate, order, m.pc.result.settleTx);
    RecordNamesThePayment(crypto, m.shared, order, m.pc.result.settleTx);
  }

  /** An undisturbed run on an entry that is READY on these terms, or absent and registrable, at a gate that
      would pay it, ends SETTLED: paid once, as signed, the record telling the order field by field and naming the
      payment's transaction and ledger, the stored proof showing SETTLED, and telling the order too when it was not
      known before or only as signed. */
  lemma RetryEndsPaid(crypto: Crypto, w: World, order: Order, run: seq<Moment>, cs: seq<Choice>)
    requires ReachableWorld(crypto, w) && OrderOk(crypto, order) && HasContext(order.invoiceId, order.poId)
    requires Undisturbed(crypto, order, run, cs) && |cs| >= LONGEST_RUN && run[0].shared == w.shared
    requires Promising(crypto, order, w.shared.gate, cs)
    requires forall c :: c in cs ==> Conducive(w.shared.gate, order, c.response)
    ensures PaidAndRecorded(run[|cs|], order)
    ensures NotYetRegistered(w.shared, order) ==> RemembersTheOrder(run[|cs|].shared, order)
  {
    ReachableWorldOk(crypto, w);
    if NotYetRegistered(w.shared, order) {
      RememberingRun(crypto, order, run, cs, |cs|);
    }
    PayingRun(crypto, order, run, cs, |cs|);
    UndisturbedRunFinishes(crypto, order, run, cs);
    EndsPaid(crypto, order, run[|cs|]);
  }

  // ------------------------------------------------ what is not guaranteed

  /** With an empty invoice or purchase-order id the parse of the result throws after the money has moved:
      the payable is paid and nothing is recorded. */
  lemma IllFormedContextIsPaidButUnrecorded(crypto: Crypto, s: Shared, order: Order, rt: Option<Receipt>, c: Choice)
    requires SharedOk(crypto, s) && AdapterOk(crypto, s.gate, order, SettleOnChain(rt)) && Timely(s.gate, c.response)
    requires ReadyAsSigned(s.gate, order) && Conducive(s.gate, order, c.response)
    ensures var (s', pc') := AdapterStep(crypto, s, order, SettleOnChain(rt), c);
            Has(s'.gate, order.idHash, Settled) && s'.store == s.store && order.payableId !in s'.store.settlements
            && (pc' == Finished(Threw) <==> !HasContext(order.invoiceId, order.poId))
  {
    ConduciveSettlePays(crypto, s.gate, order, c.response);
    ReadyIsUnrecorded(crypto, s, order);
  }
}
