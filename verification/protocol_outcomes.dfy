/** How an undisturbed run of the adapter ends when it does not pay: which refusal, and what it leaves behind. */
module ProtocolOutcomes {
  import opened Primitives
  import opened GateSpec
  import opened GateInvariants
  import opened GateTheorems
  import opened Protocol
  import opened ProtocolSafety
  import opened ProtocolRecovery
  import S = SettlementStore

  lemma StepAt(crypto: Crypto, order: Order, run: seq<Moment>, cs: seq<Choice>, i: nat)
    requires Undisturbed(crypto, order, run, cs) && i < |cs|
    ensures Next(crypto, order, run[i], run[i + 1], cs[i])
  {
    assert NextAt(crypto, order, run, cs, i);
  }

  lemma {:induction false} StaysFinished(crypto: Crypto, order: Order, run: seq<Moment>, cs: seq<Choice>, i: nat,
                                         j: nat)
    requires Undisturbed(crypto, order, run, cs) && i <= j <= |cs| && run[i].pc.Finished?
    ensures run[j] == run[i]
  {
    if i < j {
      StaysFinished(crypto, order, run, cs, i, j - 1);
      StepAt(crypto, order, run, cs, j - 1);
    }
  }

  /** The store after the proof has been remembered: one that was missing or only signed is written, any other kept. */
  function Remembered(s: S.Store, order: Order): S.Store {
    if order.idHash in s.proofs && s.proofs[order.idHash].status != S.Signed then s
    else s.(proofs := s.proofs[order.idHash := ProofFor(order)])
  }

  lemma ReadsTheChain(crypto: Crypto, order: Order, run: seq<Moment>, cs: seq<Choice>) returns (i: nat)
    requires Undisturbed(crypto, order, run, cs) && |cs| >= LONGEST_RUN
    ensures i <= 2 && run[i].pc.ReadChain?
    ensures run[i].shared == run[0].shared.(store := Remembered(run[0].shared.store, order))
    ensures NotYetRegistered(run[0].shared, order) ==> RemembersTheOrder(run[i].shared, order)
    ensures order.idHash in run[i].shared.store.proofs
  {
    StepAt(crypto, order, run, cs, 0);
    if run[1].pc.ReadChain? {
      i := 1;
    } else {
      StepAt(crypto, order, run, cs, 1);
      i := 2;
    }
    if NotYetRegistered(run[0].shared, order) {
      RememberingRun(crypto, order, run, cs, i);
    }
  }

  /** How it ended: this refusal, the gate as it was, no record written, and the proof with this status. */
  ghost predicate EndsRefused(first: Moment, last: Moment, order: Order, reason: Refusal, status: S.ProofStatus) {
    last.pc == Finished(RefusedTo(reason)) && last.shared.gate == first.shared.gate
    && last.shared.store.settlements == first.shared.store.settlements
    && last.shared.store.fingerprints == first.shared.store.fingerprints
    && ProofShows(last.shared, order, status)
  }

  /** An entry that was expired or revoked is refused as closed, and the stored proof is told so. */
  lemma ClosedIsRefused(crypto: Crypto, order: Order, run: seq<Moment>, cs: seq<Choice>)
    requires Undisturbed(crypto, order, run, cs) && |cs| >= LONGEST_RUN
    requires Has(run[0].shared.gate, order.idHash, Expired) || Has(run[0].shared.gate, order.idHash, Revoked)
    ensures EndsRefused(run[0], run[|cs|], order, AlreadyClosed,
                        if run[0].shared.gate.payables[order.idHash].status == Expired then S.Expired else S.Revoked)
  {
    var i := ReadsTheChain(crypto, order, run, cs);
    StepAt(crypto, order, run, cs, i);
    StepAt(crypto, order, run, cs, i + 1);
    StaysFinished(crypto, order, run, cs, i + 2, |cs|);
  }

  /** An entry READY under this id whose proof hash, recipient, amount or expiry is not the order's is not settled. */
  lemma MismatchIsRefused(crypto: Crypto, order: Order, run: seq<Moment>, cs: seq<Choice>)
    requires Undisturbed(crypto, order, run, cs) && |cs| >= LONGEST_RUN
    requires Has(run[0].shared.gate, order.idHash, Ready)
    requires var p := run[0].shared.gate.payables[order.idHash];
             p.proofHash != order.terms.proofHash || p.recipient != order.terms.recipient
             || p.amount != order.terms.amount || p.expiry != order.terms.expiry
    ensures var was := Remembered(run[0].shared.store, order).proofs[order.idHash].status;
            EndsRefused(run[0], run[|cs|], order, OnChainMismatch, was)
  {
    var i := ReadsTheChain(crypto, order, run, cs);
    StepAt(crypto, order, run, cs, i);
    StaysFinished(crypto, order, run, cs, i + 1, |cs|);
  }

  /** A proof not on-chain with less than two minutes to live is refused as stale, before anything is submitted. */
  lemma StaleIsRefused(crypto: Crypto, order: Order, run: seq<Moment>, cs: seq<Choice>)
    requires Undisturbed(crypto, order, run, cs) && |cs| >= LONGEST_RUN
    requires order.idHash !in run[0].shared.gate.payables
    requires forall c :: c in cs ==> order.terms.expiry < c.localNow + 120
    ensures var was := Remembered(run[0].shared.store, order).proofs[order.idHash].status;
            EndsRefused(run[0], run[|cs|], order, StaleProof, was)
  {
    var i := ReadsTheChain(crypto, order, run, cs);
    StepAt(crypto, order, run, cs, i);
    assert cs[i] in cs;
    StaysFinished(crypto, order, run, cs, i + 1, |cs|);
  }

  /** The call an undisturbed run makes on an absent entry, if the proof is still fresh. */
  lemma RegistersWhenFresh(crypto: Crypto, order: Order, run: seq<Moment>, cs: seq<Choice>) returns (i: nat)
    requires Undisturbed(crypto, order, run, cs) && |cs| >= LONGEST_RUN
    requires order.idHash !in run[0].shared.gate.payables
    requires forall c :: c in cs ==> order.terms.expiry >= c.localNow + 120
    ensures i <= 3 && run[i].pc.RegisterOnChain? && run[i].shared.gate == run[0].shared.gate
    ensures run[i].shared.store == Remembered(run[0].shared.store, order)
  {
    var j := ReadsTheChain(crypto, order, run, cs);
    StepAt(crypto, order, run, cs, j);
    assert cs[j] in cs;
    i := j + 1;
  }

  /** What the run makes of a registration call that did not succeed: refused by the gate, except for already existing;
      an exception, when no answer came. The store keeps what was remembered. */
  lemma FailedRegistrationEnds(crypto: Crypto, order: Order, run: seq<Moment>, cs: seq<Choice>, i: nat)
    requires Undisturbed(crypto, order, run, cs) && |cs| >= LONGEST_RUN && i < |cs| && run[i].pc.RegisterOnChain?
    requires order.terms.status.Ready?
    ensures var (g', r) :=
            SubmitRegister(crypto, run[i].shared.gate, cs[i].response, order.idHash, order.terms, order.signatures);
            (r.GateError? && r.error != PayableAlreadyExists ==> run[|cs|].pc == Finished(RefusedTo(GateRefused)))
            && (r.Exception? ==> run[|cs|].pc == Finished(Threw))
            && (r.Exception? || (r.GateError? && r.error != PayableAlreadyExists) ==>
                  run[|cs|].shared == run[i].shared.(gate := g'))
  {
    StepAt(crypto, order, run, cs, i);
    if run[i + 1].pc.Finished? {
      StaysFinished(crypto, order, run, cs, i + 1, |cs|);
    }
  }

  /** What it makes of one that did, or that found the entry already there: the entry is read back and the proof marked
      as registered, in the registering transaction if it was this run's, before anything else. */
  lemma RegistrationIsMarked(crypto: Crypto, order: Order, run: seq<Moment>, cs: seq<Choice>, i: nat)
    requires Undisturbed(crypto, order, run, cs) && i + 2 < |cs| && run[i].pc.RegisterOnChain?
    requires order.terms.status.Ready?
    ensures var (g', r) :=
            SubmitRegister(crypto, run[i].shared.gate, cs[i].response, order.idHash, order.terms, order.signatures);
            r.Submitted? || (r.GateError? && r.error == PayableAlreadyExists) ==>
              var registerTx := if r.Submitted? then Some(Receipt(r.tx, r.ledger)) else None;
              run[i + 2].shared == run[i].shared.(gate := g')
              && if order.idHash !in g'.payables then run[i + 2].pc == Finished(RefusedTo(GateRefused))
                 else
                   run[i + 2].pc == MarkRegistered(registerTx, g'.payables[order.idHash])
                   && run[i + 3].shared.gate == g'
                   && (order.idHash in run[i].shared.store.proofs ==>
                         ProofShows(run[i + 3].shared, order, S.Registered)
                         && (r.Submitted? ==> run[i + 3].shared.store.proofs[order.idHash].registerTx == Some(r.tx)))
                   && (g'.payables[order.idHash].status == Ready ==>
                         run[i + 3].pc in {SettleOnChain(registerTx), Finished(RefusedTo(OnChainMismatch))})
                   && (g'.payables[order.idHash].status == Settled ==> run[i + 3].pc == MarkAlready)
  {
    StepAt(crypto, order, run, cs, i);
    StepAt(crypto, order, run, cs, i + 1);
    StepAt(crypto, order, run, cs, i + 2);
  }

  /** The registering transaction a run reports is the one it settled with. */
  lemma {:induction false} ReceiptIsKept(crypto: Crypto, order: Order, run: seq<Moment>, cs: seq<Choice>, i: nat,
                                         j: nat)
    requires Undisturbed(crypto, order, run, cs) && i <= j <= |cs| && run[i].pc.SettleOnChain?
    ensures Carrying(run[j].pc, run[i].pc.registerTx)
  {
    if i < j {
      ReceiptIsKept(crypto, order, run, cs, i, j - 1);
      StepAt(crypto, order, run, cs, j - 1);
    }
  }

  predicate Carrying(pc: AdapterPc, registerTx: Option<Receipt>) {
    match pc
    case SettleOnChain(rt) => rt == registerTx
    case RecordPayment(rt, _) => rt == registerTx
    case MarkPaid(rt, _) => rt == registerTx
    case RememberFingerprint(rt, _) => rt == registerTx
    case Finished(PaidNow(rt, _)) => rt == registerTx
    case _ =>
      pc.ReadAfterNotReady? || pc.MarkAlready? || LooksUp(pc) || pc.RebuildRecord? || pc.RebuildFingerprint?
      || pc.Finished?
  }

  /** The same of a settle call: refused by the gate, NotReady too unless the chain now shows SETTLED; an exception
      when no answer came. No record is written. */
  lemma FailedSettlementEnds(crypto: Crypto, order: Order, run: seq<Moment>, cs: seq<Choice>, i: nat)
    requires Undisturbed(crypto, order, run, cs) && |cs| >= LONGEST_RUN && i + 1 < |cs| && run[i].pc.SettleOnChain?
    requires Sane(run[i].shared.gate)
    ensures var (g', r) := SubmitSettle(run[i].shared.gate, cs[i].response, order.idHash);
            var failed := r.GateError? && (r.error != NotReady || !Has(g', order.idHash, Settled));
            (failed ==> run[|cs|].pc == Finished(RefusedTo(GateRefused)))
            && (r.Exception? ==> run[|cs|].pc == Finished(Threw))
            && (failed || r.Exception? ==> run[|cs|].shared == run[i].shared.(gate := g'))
  {
    StepAt(crypto, order, run, cs, i);
    StepAt(crypto, order, run, cs, i + 1);
    if run[i + 1].pc.Finished? {
      StaysFinished(crypto, order, run, cs, i + 1, |cs|);
    } else if run[i + 2].pc.Finished? {
      StaysFinished(crypto, order, run, cs, i + 2, |cs|);
    }
  }

  // -------------------------------------------------------- already settled

  /** With the entry SETTLED a run only looks: at the record, or, for want of one, at the stored event. */
  ghost predicate Looking(s0: Shared, order: Order, m: Moment) {
    m.shared.gate == s0.gate
    && match m.pc
       case RememberProof => m.shared.store == s0.store
       case StoreProof => m.shared.store == s0.store
       case ReadChain => KeepsMoney(s0, m.shared) && order.idHash in m.shared.store.proofs
       case MarkAlready => KeepsMoney(s0, m.shared) && order.idHash in m.shared.store.proofs
       case LookUpRecord => KeepsMoney(s0, m.shared) && ProofShows(m.shared, order, S.Settled)
       case LookUpEvent => KeepsMoney(s0, m.shared) && ProofShows(m.shared, order, S.Settled) && !Recorded(s0, order)
       case RebuildRecord(e) =>
         KeepsMoney(s0, m.shared) && ProofShows(m.shared, order, S.Settled) && !Recorded(s0, order)
         && Some(e) == S.FindSettlementEvent(s0.store, order.idHash)
       case RebuildFingerprint(e) => Rebuilt(s0, order, m.shared, e)
       case LookUpAgain =>
         var e := S.FindSettlementEvent(s0.store, order.idHash);
         e.Some? && Rebuilt(s0, order, m.shared, e.value) && order.fingerprint in m.shared.store.fingerprints
       case Finished(_) => Looked(s0, order, m)
       case _ => false
  }

  predicate KeepsMoney(s0: Shared, s: Shared) {
    s.store.settlements == s0.store.settlements && s.store.fingerprints == s0.store.fingerprints
    && s.store.events == s0.store.events
  }

  /** A record has been written from this event: the order's, in the event's transaction and ledger. */
  ghost predicate Rebuilt(s0: Shared, order: Order, s: Shared, e: S.ChainEvent) {
    !Recorded(s0, order) && Some(e) == S.FindSettlementEvent(s0.store, order.idHash)
    && s.store.events == s0.store.events && ProofShows(s, order, S.Settled)
    && RecordsTheOrder(s, order)
    && s.store.settlements == s0.store.settlements[order.payableId := s.store.settlements[order.payableId]]
    && s.store.settlements[order.payableId].tx == e.logged.tx
    && s.store.settlements[order.payableId].ledger == e.logged.ledger
  }

  /** How such a run ends: with the record that was there, or the one rebuilt, or, with neither, none. */
  ghost predicate Looked(s0: Shared, order: Order, m: Moment) {
    var e := S.FindSettlementEvent(s0.store, order.idHash);
    ProofShows(m.shared, order, S.Settled)
    && if Recorded(s0, order) then
         KeepsMoney(s0, m.shared) && m.pc == Told(s0.store.settlements[order.payableId])
       else if e.Some? then
         Rebuilt(s0, order, m.shared, e.value) && order.fingerprint in m.shared.store.fingerprints
         && m.pc == Told(m.shared.store.settlements[order.payableId])
       else
         KeepsMoney(s0, m.shared) && m.pc == Finished(AlreadyPaid(None))
  }

  /** A record is returned if its invoice and purchase order are not empty; reading it throws otherwise. */
  function Told(record: S.SettlementRecord): AdapterPc {
    if record.invoiceId == [] || record.poId == [] then Finished(Threw) else Finished(AlreadyPaid(Some(record)))
  }

  lemma LookingStep(crypto: Crypto, s0: Shared, order: Order, m: Moment, m': Moment, c: Choice)
    requires Has(s0.gate, order.idHash, Settled) && Looking(s0, order, m) && Next(crypto, order, m, m', c)
    ensures Looking(s0, order, m')
  {
    if LooksUp(m.pc) {
      LookingUp(crypto, s0, order, m, m', c);
    }
  }

  lemma LookingUp(crypto: Crypto, s0: Shared, order: Order, m: Moment, m': Moment, c: Choice)
    requires Has(s0.gate, order.idHash, Settled) && Looking(s0, order, m) && Next(crypto, order, m, m', c)
             && LooksUp(m.pc)
    ensures Looking(s0, order, m')
  {
  }

  lemma {:induction false} LookingRun(crypto: Crypto, order: Order, run: seq<Moment>, cs: seq<Choice>, i: nat)
    requires Undisturbed(crypto, order, run, cs) && i <= |cs| && Has(run[0].shared.gate, order.idHash, Settled)
    ensures Looking(run[0].shared, order, run[i])
  {
    if i > 0 {
      LookingRun(crypto, order, run, cs, i - 1);
      StepAt(crypto, order, run, cs, i - 1);
      LookingStep(crypto, run[0].shared, order, run[i - 1], run[i], cs[i - 1]);
    }
  }

  /** An entry already SETTLED: the gate is left alone, the proof shows SETTLED, a record that was there is returned
      untouched, and a missing one is rebuilt field by field from the order and the stored event. */
  lemma SettledIsLookedUp(crypto: Crypto, order: Order, run: seq<Moment>, cs: seq<Choice>)
    requires Undisturbed(crypto, order, run, cs) && |cs| >= LONGEST_RUN
    requires Has(run[0].shared.gate, order.idHash, Settled)
    ensures run[|cs|].shared.gate == run[0].shared.gate && Looked(run[0].shared, order, run[|cs|])
  {
    LookingRun(crypto, order, run, cs, |cs|);
    UndisturbedRunFinishes(crypto, order, run, cs);
  }

  // ------------------------------------------------- paid by someone else

  /** The end of a run, from wherever others have left the gate and the store. */
  ghost predicate Steps(crypto: Crypto, order: Order, run: seq<Moment>, cs: seq<Choice>) {
    |run| == |cs| + 1 && forall i: nat :: i < |cs| ==> NextAt(crypto, order, run, cs, i)
  }

  lemma {:induction false} LookingOn(crypto: Crypto, s0: Shared, order: Order, run: seq<Moment>, cs: seq<Choice>,
                                     i: nat)
    requires Steps(crypto, order, run, cs) && 2 <= i <= |cs| && Has(s0.gate, order.idHash, Settled)
    requires Looking(s0, order, run[2]) && Rank(run[2].pc) <= 6
    ensures Looking(s0, order, run[i]) && (Rank(run[i].pc) == 0 || Rank(run[i].pc) + i <= 8)
  {
    if i > 2 {
      LookingOn(crypto, s0, order, run, cs, i - 1);
      assert NextAt(crypto, order, run, cs, i - 1);
      LookingStep(crypto, s0, order, run[i - 1], run[i], cs[i - 1]);
      StepLowersRank(crypto, order, run[i - 1], run[i], cs[i - 1]);
    }
  }

  /** A run about to settle an entry that another process has settled meanwhile: told that it is no longer READY, it
      reads the entry again and ends like any other run that finds it SETTLED, not with a refusal. */
  lemma SettledMeanwhileIsLookedUp(crypto: Crypto, order: Order, run: seq<Moment>, cs: seq<Choice>)
    requires Steps(crypto, order, run, cs) && |cs| >= 8 && run[0].pc.SettleOnChain?
    requires Has(run[0].shared.gate, order.idHash, Settled) && order.idHash in run[0].shared.store.proofs
    requires Sane(run[0].shared.gate)
             && SubmitSettle(run[0].shared.gate, cs[0].response, order.idHash).1 == GateError(NotReady)
    ensures run[|cs|].shared.gate == run[0].shared.gate && Looked(run[0].shared, order, run[|cs|])
  {
    assert NextAt(crypto, order, run, cs, 0);
    SettledIsNotReady(crypto, order, run[0], run[1], cs[0]);
    assert NextAt(crypto, order, run, cs, 1);
    LookingOn(crypto, run[0].shared, order, run, cs, |cs|);
  }

  lemma SettledIsNotReady(crypto: Crypto, order: Order, m: Moment, m': Moment, c: Choice)
    requires Next(crypto, order, m, m', c) && m.pc.SettleOnChain?
             && SubmitSettle(m.shared.gate, c.response, order.idHash).1 == GateError(NotReady)
    ensures m' == Moment(m.shared, ReadAfterNotReady)
  {
  }

  // ------------------------------------------------------------- revoking

  /** The revocation route, its two awaits: the proof shows REVOKED after an answered call, and only then; a call whose
      answer is lost may have revoked on-chain and leaves the store as it was. */
  lemma RevokingEnds(crypto: Crypto, s: Shared, idHash: Bytes32, reason: Octets, signatures: seq<IssuerSignature>,
                     c: Choice, d: Choice)
    requires Sane(s.gate)
    ensures var (mid, pc) := RevokeStep(crypto, s, RevokeOnChain(idHash, reason, signatures), c);
            var (g', r) := SubmitRevoke(crypto, s.gate, c.response, idHash, reason, signatures);
            mid == s.(gate := g') && (r.Submitted? <==> !pc.RevokeDone?)
            && (r.Submitted? ==>
                  Sane(mid.gate) && c.response.Answered? && Has(mid.gate, idHash, Revoked)
                  && var (last, end) := RevokeStep(crypto, mid, pc, d);
                     end.RevokeDone? && last.gate == mid.gate
                     && last.store == s.store.(proofs := last.store.proofs)
                       && last.store.proofs.Keys == s.store.proofs.Keys
                     && forall id :: id in s.store.proofs ==>
                       last.store.proofs[id] == if id == idHash then s.store.proofs[id].(status := S.Revoked)
                                                else s.store.proofs[id])
  {
  }
}
