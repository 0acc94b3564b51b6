/** `SettlementAdapter`: reads the chain, does what is missing, and records what happened. */
module Adapter {
  import opened Primitives
  import opened GateSpec
  import opened GateInvariants
  import opened Protocol
  import opened ProtocolSafety
  import opened ProtocolRecovery
  import S = SettlementStore

  /** Ledger times do not run backwards over the answers a run will get. */
  ghost predicate Patient(cs: seq<Choice>, from: nat, clock: u64) {
    forall i :: from <= i < |cs| && (cs[i].response.Answered? || cs[i].response.ResponseLost?) ==>
      clock <= cs[i].response.env.now
      && forall j :: i <= j < |cs| && (cs[j].response.Answered? || cs[j].response.ResponseLost?) ==>
           cs[i].response.env.now <= cs[j].response.env.now
  }

  datatype Part = OfTheChain | OfTheStore | OfTheRun

  ghost predicate PartOk(part: Part, crypto: Crypto, order: Order, m: Moment) {
    match part
    case OfTheChain => Inv(crypto, m.shared.gate) && Sane(m.shared.gate)
    case OfTheStore => Backed(crypto, m.shared.gate, m.shared.store)
    case OfTheRun => AdapterOk(crypto, m.shared.gate, order, m.pc)
  }

  /** Chain, store and run are as any interleaving leaves them. */
  ghost predicate MomentOk(crypto: Crypto, order: Order, m: Moment) {
    forall part :: PartOk(part, crypto, order, m)
  }

  lemma MomentParts(crypto: Crypto, order: Order, m: Moment)
    ensures MomentOk(crypto, order, m) <==> SharedOk(crypto, m.shared) && AdapterOk(crypto, m.shared.gate, order, m.pc)
  {
    if MomentOk(crypto, order, m) {
      assert PartOk(OfTheChain, crypto, order, m) && PartOk(OfTheStore, crypto, order, m)
        && PartOk(OfTheRun, crypto, order, m);
    }
  }

  /** The awaits so far are a run of the step machine on the first choices, and there are choices left for the rest. */
  ghost predicate SoFar(crypto: Crypto, order: Order, run: seq<Moment>, cs: seq<Choice>, now: Moment) {
    1 <= |run| <= |cs| + 1 && Undisturbed(crypto, order, run, cs[..|run| - 1]) && run[|run| - 1] == now
    && |run| - 1 + Rank(now.pc) <= |cs|
    && MomentOk(crypto, order, now) && Sane(now.shared.gate) && order.terms.status.Ready?
    && Patient(cs, |run| - 1, now.shared.gate.clock)
  }

  lemma PatienceLasts(g: Gate, g': Gate, cs: seq<Choice>, n: nat)
    requires n < |cs| && Patient(cs, n, g.clock)
    requires g'.clock == g.clock
             || ((cs[n].response.Answered? || cs[n].response.ResponseLost?) && g'.clock == cs[n].response.env.now)
    ensures Timely(g, cs[n].response) && Patient(cs, n + 1, g'.clock)
  {
  }

  lemma OneMoreAwait(crypto: Crypto, order: Order, run: seq<Moment>, cs: seq<Choice>, now: Moment, next: Moment)
    requires SoFar(crypto, order, run, cs, now) && !now.pc.Finished? && Patient(cs, |run|, next.shared.gate.clock)
    requires Next(crypto, order, now, next, cs[|run| - 1])
    ensures SoFar(crypto, order, run + [next], cs, next)
  {
    var n := |run| - 1;
    MomentParts(crypto, order, now);
    MomentParts(crypto, order, next);
    StepLowersRank(crypto, order, now, next, cs[n]);
    AdapterStepOk(crypto, now.shared, order, now.pc, cs[n]);
    assert cs[..n + 1][..n] == cs[..n];
    var longer, used := run + [next], cs[..n + 1];
    forall i: nat | i < n + 1 ensures NextAt(crypto, order, longer, used, i) {
      if i < n {
        assert NextAt(crypto, order, run, cs[..n], i);
      }
    }
  }

  class SettlementAdapter {
    const crypto: Crypto
    const store: S.MemorySettlementStore
    /** The chain the client talks to. */
    var chain: Gate
    /** Awaits resolved in the current run. */
    var awaits: nat

    constructor (crypto: Crypto, store: S.MemorySettlementStore, chain: Gate)
      ensures this.crypto == crypto && this.store == store && this.chain == chain
    {
      this.crypto, this.store, this.chain, awaits := crypto, store, chain, 0;
    }

    ghost function Now(pc: AdapterPc): Moment
      reads this, store
    {
      Moment(Shared(chain, store.State()), pc)
    }

    ghost predicate Reached(order: Order, run: seq<Moment>, cs: seq<Choice>, pc: AdapterPc)
      reads this, store
    {
      SoFar(crypto, order, run, cs, Now(pc)) && awaits + 1 == |run|
    }

    /** An await that left the chain alone has resolved. */
    method Resolved(order: Order, ghost run: seq<Moment>, cs: seq<Choice>, ghost before: Moment, ghost pc: AdapterPc)
      returns (ghost after: seq<Moment>)
      requires SoFar(crypto, order, run, cs, before) && awaits + 1 == |run| && !before.pc.Finished?
               && !CallsGate(before.pc)
      requires before.shared.gate == chain
      requires AdapterStep(crypto, before.shared, order, before.pc, cs[|run| - 1]) == (Now(pc).shared, pc)
      modifies this`awaits
      ensures Reached(order, after, cs, pc) && run <= after
    {
      after := run + [Now(pc)];
      OneMoreAwait(crypto, order, run, cs, before, Now(pc));
      awaits := awaits + 1;
    }

    /** Submits the registration; the network's answer is the current choice. */
    method SendRegister(order: Order, ghost run: seq<Moment>, cs: seq<Choice>)
      returns (r: CallResult, ghost after: seq<Moment>)
      requires Reached(order, run, cs, RegisterOnChain)
      modifies this`chain, this`awaits
      ensures r == old(SubmitRegister(crypto, chain, cs[|run| - 1].response, order.idHash, order.terms,
                                      order.signatures)).1
      ensures Reached(order, after, cs,
                      AdapterStep(crypto, old(Now(RegisterOnChain)).shared, order, RegisterOnChain, cs[|run| - 1]).1)
      ensures run <= after
    {
      ghost var m := Now(RegisterOnChain);
      var (g', result) :=
        SubmitRegister(crypto, chain, cs[awaits].response, order.idHash, order.terms, order.signatures);
      PatienceLasts(chain, g', cs, awaits);
      chain, r := g', result;
      ghost var pc := AdapterStep(crypto, m.shared, order, RegisterOnChain, cs[awaits]).1;
      after := run + [Now(pc)];
      OneMoreAwait(crypto, order, run, cs, m, Now(pc));
      awaits := awaits + 1;
    }

    /** Submits the settlement. */
    method SendSettle(order: Order, ghost run: seq<Moment>, cs: seq<Choice>, ghost registerTx: Option<Receipt>)
      returns (r: CallResult, ghost after: seq<Moment>)
      requires Reached(order, run, cs, SettleOnChain(registerTx))
      modifies this`chain, this`awaits
      ensures r == old(SubmitSettle(chain, cs[|run| - 1].response, order.idHash)).1
      ensures Reached(order, after, cs,
                      AdapterStep(crypto, old(Now(SettleOnChain(registerTx))).shared, order,
                                  SettleOnChain(registerTx), cs[|run| - 1]).1)
      ensures run <= after
    {
      ghost var m := Now(SettleOnChain(registerTx));
      var (g', result) := SubmitSettle(chain, cs[awaits].response, order.idHash);
      PatienceLasts(chain, g', cs, awaits);
      chain, r := g', result;
      ghost var pc := AdapterStep(crypto, m.shared, order, SettleOnChain(registerTx), cs[awaits]).1;
      after := run + [Now(pc)];
      OneMoreAwait(crypto, order, run, cs, m, Now(pc));
      awaits := awaits + 1;
    }

    /** Never overwrites a record that has moved past SIGNED. */
    method RememberTheProof(order: Order, cs: seq<Choice>, ghost run: seq<Moment>) returns (ghost after: seq<Moment>)
      requires Reached(order, run, cs, RememberProof)
      modifies this`awaits, store
      ensures Reached(order, after, cs, ReadChain) && run <= after
    {
      ghost var m := Now(RememberProof);
      var existing := store.ProofByIdHash(order.idHash);
      if existing.Some? && existing.value.status != S.Signed {
        after := Resolved(order, run, cs, m, ReadChain);
        return;
      }
      after := Resolved(order, run, cs, m, StoreProof);
      m := Now(StoreProof);
      store.Upsert(ProofFor(order));
      after := Resolved(order, after, cs, m, ReadChain);
    }

    /** The record a previous attempt left, or one rebuilt from the chain's own event. */
    method AlreadySettled(order: Order, cs: seq<Choice>, ghost run: seq<Moment>)
      returns (result: SettlementOutcome, ghost after: seq<Moment>)
      requires Reached(order, run, cs, MarkAlready)
      modifies this`awaits, store
      ensures Reached(order, after, cs, Finished(result)) && run <= after
    {
      ghost var m := Now(MarkAlready);
      store.SetStatus(order.idHash, S.Settled, None);
      after := Resolved(order, run, cs, m, LookUpRecord);
      m := Now(LookUpRecord);
      var record := store.SettlementOf(order.payableId);
      if record.None? {
        after := Resolved(order, after, cs, m, LookUpEvent);
        result, after := FromEvent(order, cs, after);
      } else {
        result := Parsed(record);
        after := Resolved(order, after, cs, m, Finished(result));
      }
    }

    function Parsed(record: Option<S.SettlementRecord>): (result: SettlementOutcome)
      ensures AlreadyOutcome(record) == Finished(result)
    {
      if record.Some? && !HasContext(record.value.invoiceId, record.value.poId) then Threw else AlreadyPaid(record)
    }

    method SettlementEvent(order: Order) returns (event: Option<S.ChainEvent>)
      requires MomentOk(crypto, order, Now(LookUpEvent))
      ensures event == S.FindSettlementEvent(store.State(), order.idHash)
    {
      MomentParts(crypto, order, Now(LookUpEvent));
      event := store.FindEvent(order.idHash);
      FoundIsTheOne(crypto, Now(LookUpEvent).shared, order.idHash, event);
    }

    method FromEvent(order: Order, cs: seq<Choice>, ghost run: seq<Moment>)
      returns (result: SettlementOutcome, ghost after: seq<Moment>)
      requires Reached(order, run, cs, LookUpEvent)
      modifies this`awaits, store
      ensures Reached(order, after, cs, Finished(result)) && run <= after
    {
      ghost var m := Now(LookUpEvent);
      var event := SettlementEvent(order);
      if event.None? {
        result := Parsed(None);
        after := Resolved(order, run, cs, m, Finished(result));
        return;
      }
      after := Resolved(order, run, cs, m, RebuildRecord(event.value));
      after := Rebuild(order, cs, after, event.value);
      result, after := LookAgain(order, cs, after);
    }

    method Rebuild(order: Order, cs: seq<Choice>, ghost run: seq<Moment>, event: S.ChainEvent)
      returns (ghost after: seq<Moment>)
      requires Reached(order, run, cs, RebuildRecord(event))
      modifies this`awaits, store
      ensures Reached(order, after, cs, LookUpAgain) && run <= after
    {
      ghost var m := Now(RebuildRecord(event));
      store.Record(RecordFor(order, event.logged.tx, event.logged.ledger));
      after := Resolved(order, run, cs, m, RebuildFingerprint(event));
      m := Now(RebuildFingerprint(event));
      store.AddSettledFingerprint(order.fingerprint, Note(order.payableId, event.logged.tx));
      after := Resolved(order, after, cs, m, LookUpAgain);
    }

    method LookAgain(order: Order, cs: seq<Choice>, ghost run: seq<Moment>)
      returns (result: SettlementOutcome, ghost after: seq<Moment>)
      requires Reached(order, run, cs, LookUpAgain)
      modifies this`awaits
      ensures Reached(order, after, cs, Finished(result)) && run <= after
    {
      var record := store.SettlementOf(order.payableId);
      result := Parsed(record);
      after := Resolved(order, run, cs, Now(LookUpAgain), Finished(result));
    }

    /** Registers and reads back what the chain now holds; None when the run ends here. */
    method Register(order: Order, cs: seq<Choice>, ghost run: seq<Moment>)
      returns (seen: Option<Payable>, registerTx: Option<Receipt>, result: SettlementOutcome, ghost after: seq<Moment>)
      requires Reached(order, run, cs, RegisterOnChain)
      modifies this`chain, this`awaits, store
      ensures run <= after
      ensures seen.None? ==> Reached(order, after, cs, Finished(result))
      ensures seen.Some? ==>
              Reached(order, after, cs, if seen.value.status.Settled? then MarkAlready
                                        else CheckedToSettle(order, seen.value, registerTx))
    {
      seen, registerTx := None, None;
      var r;
      r, after := SendRegister(order, run, cs);
      match r {
        case Submitted(tx, ledger) => registerTx := Some(Receipt(tx, ledger));
        case GateError(error) =>
          if error != PayableAlreadyExists {
            result := RefusedTo(GateRefused);
            return;
          }
        case Exception =>
          result := Threw;
          return;
      }
      seen, result, after := ReadBack(order, cs, after, registerTx);
    }

    method ReadBack(order: Order, cs: seq<Choice>, ghost run: seq<Moment>, registerTx: Option<Receipt>)
      returns (seen: Option<Payable>, result: SettlementOutcome, ghost after: seq<Moment>)
      requires Reached(order, run, cs, ReadAgain(registerTx))
      modifies this`awaits, store
      ensures run <= after
      ensures seen.None? ==> Reached(order, after, cs, Finished(result))
      ensures seen.Some? ==>
              Reached(order, after, cs, if seen.value.status.Settled? then MarkAlready
                                        else CheckedToSettle(order, seen.value, registerTx))
    {
      ghost var m := Now(ReadAgain(registerTx));
      seen := OnChain(chain, order.idHash);
      result := RefusedTo(GateRefused);
      if seen.None? {
        after := Resolved(order, run, cs, m, Finished(result));
        return;
      }
      after := Resolved(order, run, cs, m, MarkRegistered(registerTx, seen.value));
      m := Now(MarkRegistered(registerTx, seen.value));
      store.SetStatus(order.idHash, S.Registered, if registerTx.Some? then Some(registerTx.value.tx) else None);
      after := Resolved(order, after, cs, m,
        if seen.value.status.Settled? then MarkAlready else CheckedToSettle(order, seen.value, registerTx));
    }

    /** NotReady may mean another run has just been paid; the chain decides. */
    method AfterNotReady(order: Order, cs: seq<Choice>, ghost run: seq<Moment>)
      returns (result: SettlementOutcome, ghost after: seq<Moment>)
      requires Reached(order, run, cs, ReadAfterNotReady)
      modifies this`chain, this`awaits, store
      ensures Reached(order, after, cs, Finished(result)) && run <= after
    {
      ghost var m := Now(ReadAfterNotReady);
      var now := OnChain(chain, order.idHash);
      if now.Some? && now.value.status.Settled? {
        after := Resolved(order, run, cs, m, MarkAlready);
        result, after := AlreadySettled(order, cs, after);
      } else {
        result := RefusedTo(GateRefused);
        after := Resolved(order, run, cs, m, Finished(result));
      }
    }

    /** The one call that moves money, and what is written once it has answered. */
    method Pay(order: Order, cs: seq<Choice>, ghost run: seq<Moment>, registerTx: Option<Receipt>)
      returns (result: SettlementOutcome, ghost after: seq<Moment>)
      requires Reached(order, run, cs, SettleOnChain(registerTx))
      modifies this`chain, this`awaits, store
      ensures Reached(order, after, cs, Finished(result)) && run <= after
    {
      var r;
      r, after := SendSettle(order, run, cs, registerTx);
      match r {
        case Exception => result := Threw;
        case GateError(error) =>
          result := RefusedTo(GateRefused);
          if error == NotReady {
            result, after := AfterNotReady(order, cs, after);
          }
        case Submitted(tx, ledger) =>
          if HasContext(order.invoiceId, order.poId) {
            result, after := RecordIt(order, cs, after, registerTx, Receipt(tx, ledger));
          } else {
            result := Threw;
          }
      }
    }

    method RecordIt(order: Order, cs: seq<Choice>, ghost run: seq<Moment>, registerTx: Option<Receipt>, t: Receipt)
      returns (result: SettlementOutcome, ghost after: seq<Moment>)
      requires Reached(order, run, cs, RecordPayment(registerTx, t))
      modifies this`awaits, store
      ensures Reached(order, after, cs, Finished(result)) && run <= after
    {
      ghost var m := Now(RecordPayment(registerTx, t));
      store.Record(RecordFor(order, t.tx, t.ledger));
      after := Resolved(order, run, cs, m, MarkPaid(registerTx, t));
      m := Now(MarkPaid(registerTx, t));
      store.SetStatus(order.idHash, S.Settled, None);
      after := Resolved(order, after, cs, m, RememberFingerprint(registerTx, t));
      m := Now(RememberFingerprint(registerTx, t));
      store.AddSettledFingerprint(order.fingerprint, Note(order.payableId, t.tx));
      result := PaidNow(registerTx, t);
      after := Resolved(order, after, cs, m, Finished(result));
    }

    method ReportClosed(order: Order, cs: seq<Choice>, ghost run: seq<Moment>, status: S.ProofStatus)
      returns (result: SettlementOutcome, ghost after: seq<Moment>)
      requires Reached(order, run, cs, MarkClosed(status))
      modifies this`awaits, store
      ensures Reached(order, after, cs, Finished(result)) && run <= after
    {
      ghost var m := Now(MarkClosed(status));
      store.SetStatus(order.idHash, status, None);
      result := RefusedTo(AlreadyClosed);
      after := Resolved(order, run, cs, m, Finished(result));
    }

    /** Nothing registered yet: a proof about to lapse is refused, any other is registered first. */
    method FromAbsent(order: Order, cs: seq<Choice>, ghost run: seq<Moment>)
      returns (result: SettlementOutcome, ghost after: seq<Moment>)
      requires Reached(order, run, cs, ReadChain) && OnChain(chain, order.idHash).None?
      modifies this`chain, this`awaits, store
      ensures Reached(order, after, cs, Finished(result)) && run <= after
    {
      ghost var m := Now(ReadChain);
      if order.terms.expiry - cs[awaits].localNow < MIN_REMAINING_VALIDITY_SECONDS {
        result := RefusedTo(StaleProof);
        after := Resolved(order, run, cs, m, Finished(result));
        return;
      }
      after := Resolved(order, run, cs, m, RegisterOnChain);
      var seen, registerTx;
      seen, registerTx, result, after := Register(order, cs, after);
      if seen.None? {
        return;
      }
      if seen.value.status.Settled? {
        result, after := AlreadySettled(order, cs, after);
        return;
      }
      result, after := PayIfMatching(order, cs, after, seen.value, registerTx);
    }

    method PayIfMatching(order: Order, cs: seq<Choice>, ghost run: seq<Moment>, seen: Payable,
                         registerTx: Option<Receipt>)
      returns (result: SettlementOutcome, ghost after: seq<Moment>)
      requires Reached(order, run, cs, CheckedToSettle(order, seen, registerTx))
      modifies this`chain, this`awaits, store
      ensures Reached(order, after, cs, Finished(result)) && run <= after
    {
      after := run;
      if !Matches(order, seen) {
        result := RefusedTo(OnChainMismatch);
        return;
      }
      result, after := Pay(order, cs, after, registerTx);
    }

    /** What the chain already shows decides what is still missing. */
    method SettleFromChain(order: Order, cs: seq<Choice>, ghost run: seq<Moment>)
      returns (result: SettlementOutcome, ghost after: seq<Moment>)
      requires Reached(order, run, cs, ReadChain)
      modifies this`chain, this`awaits, store
      ensures Reached(order, after, cs, Finished(result)) && run <= after
    {
      ghost var m := Now(ReadChain);
      var seen := OnChain(chain, order.idHash);
      if seen.Some? && seen.value.status.Settled? {
        after := Resolved(order, run, cs, m, MarkAlready);
        result, after := AlreadySettled(order, cs, after);
        return;
      }
      if seen.Some? && (seen.value.status.Expired? || seen.value.status.Revoked?) {
        var status := if seen.value.status.Expired? then S.Expired else S.Revoked;
        after := Resolved(order, run, cs, m, MarkClosed(status));
        result, after := ReportClosed(order, cs, after, status);
        return;
      }
      if seen.None? {
        result, after := FromAbsent(order, cs, run);
      } else {
        after := Resolved(order, run, cs, m, CheckedToSettle(order, seen.value, None));
        result, after := PayIfMatching(order, cs, after, seen.value, None);
      }
    }

    /** Takes a verified proof to a payment, idempotently: what it does is an undisturbed run of the step machine. */
    method Settle(order: Order, cs: seq<Choice>) returns (result: SettlementOutcome, ghost run: seq<Moment>)
      requires OrderOk(crypto, order) && SharedOk(crypto, Now(RememberProof).shared)
      requires |cs| >= LONGEST_RUN && Patient(cs, 0, chain.clock)
      modifies this, store
      ensures 1 <= |run| <= |cs| + 1 && Undisturbed(crypto, order, run, cs[..|run| - 1])
      ensures run[0] == old(Now(RememberProof)) && run[|run| - 1] == Now(Finished(result))
      ensures SharedOk(crypto, Now(RememberProof).shared)
    {
      ghost var first := Now(RememberProof);
      MomentParts(crypto, order, first);
      awaits := 0;
      run := RememberTheProof(order, cs, [first]);
      result, run := SettleFromChain(order, cs, run);
      assert run[0] == first;
      MomentParts(crypto, order, Now(Finished(result)));
    }
  }

  /** Whatever the sort put first, there is only one settlement event to find. */
  lemma FoundIsTheOne(crypto: Crypto, s: Shared, id: Bytes32, found: Option<S.ChainEvent>)
    requires SharedOk(crypto, s)
    requires found.None? <==> forall i :: i in s.store.events ==> !S.IsSettlementOf(s.store.events[i], id)
    requires found.Some? ==> exists k :: S.IsLatestSettlement(s.store.events, id, k) && found.value == s.store.events[k]
    ensures found == S.FindSettlementEvent(s.store, id)
  {
    var other := S.FindSettlementEvent(s.store, id);
    if found.Some? {
      var j :| S.IsLatestSettlement(s.store.events, id, j) && found.value == s.store.events[j];
      var k :| S.IsLatestSettlement(s.store.events, id, k) && other.value == s.store.events[k];
      assert Authentic(s.gate, found.value) && Authentic(s.gate, other.value);
      OneSettlementEvent(crypto, s.gate, id, j, k);
    }
  }
}
