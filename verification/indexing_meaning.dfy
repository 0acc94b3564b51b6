/** What the indexer's delivery writes, field by field, for any events whatever and any store it starts from. */
module IndexingMeaning {
  import opened Primitives
  import opened GateSpec
  import opened Protocol
  import opened Indexing
  import S = SettlementStore

  /** The record of a payment: the proof's own fields, this gate, and the transaction and ledger of the event. */
  ghost predicate TellsThePayment(r: S.SettlementRecord, p: S.ProofRecord, contractId: Str, e: LoggedEvent) {
    r.payableId == p.payableId && r.invoiceId == p.invoiceId && r.poId == p.poId && r.proofHash == p.proofHash
    && r.asset == p.asset && r.amount == p.amount && r.contractId == contractId
    && r.tx == e.tx && r.ledger == e.ledger && r.erp.Pending?
  }

  /** The note kept under the fingerprint of a paid proof. */
  ghost predicate NotesThePayment(fingerprint: Str, note: Str, p: S.ProofRecord, e: LoggedEvent) {
    fingerprint == p.vendorId + Ascii("|") + p.amount && note == p.payableId + Ascii(" settled in ") + e.tx
  }

  /** An event seen for the first time, and not yet stored when the delivery began. */
  ghost predicate IsNew(s: S.Store, es: seq<S.ChainEvent>, i: nat)
    requires i < |es|
  {
    es[i].id !in s.events && forall j :: 0 <= j < i ==> es[j].id != es[i].id
  }

  /** The i-th event is new and pays the proof kept under its id. */
  ghost predicate IsPayment(s: S.Store, es: seq<S.ChainEvent>, i: int) {
    0 <= i < |es| && IsNew(s, es, i) && es[i].logged.event.SettlementExecuted? && es[i].logged.event.id in s.proofs
  }

  ghost predicate RecordTold(s: S.Store, contractId: Str, es: seq<S.ChainEvent>, p: Str, r: S.SettlementRecord) {
    exists i ::
      IsPayment(s, es, i) && p == s.proofs[es[i].logged.event.id].payableId
      && TellsThePayment(r, s.proofs[es[i].logged.event.id], contractId, es[i].logged)
  }

  ghost predicate NoteTold(s: S.Store, es: seq<S.ChainEvent>, fingerprint: Str, note: Str) {
    exists i ::
      IsPayment(s, es, i) && NotesThePayment(fingerprint, note, s.proofs[es[i].logged.event.id], es[i].logged)
  }

  /** The stored proofs keep their ids and everything but status and registering transaction. */
  ghost predicate SameProofs(was: Proofs, now: Proofs) {
    now.Keys == was.Keys && forall id :: id in was ==> SameProof(was[id], now[id])
  }

  lemma {:induction false} DeliveryKeepsProofs(s: S.Store, contractId: Str, es: seq<S.ChainEvent>)
    ensures SameProofs(s.proofs, DeliverAll(s, contractId, es).proofs)
    ensures DeliverAll(s, contractId, es).events.Keys == s.events.Keys + Ids(es)
  {
    if es == [] {
      assert Ids(es) == {};
    } else {
      var n := |es| - 1;
      DeliveryKeepsProofs(s, contractId, es[..n]);
      OneDelivered(DeliverAll(s, contractId, es[..n]), contractId, es[n]);
      IdsWithLast(es, n);
      ProofsTwiceTheSame(s.proofs, DeliverAll(s, contractId, es[..n]).proofs, DeliverAll(s, contractId, es).proofs);
    }
  }

  lemma IdsWithLast(es: seq<S.ChainEvent>, n: nat)
    requires |es| == n + 1
    ensures Ids(es) == Ids(es[..n]) + {es[n].id}
  {
    assert forall i :: 0 <= i < n ==> es[..n][i] == es[i];
  }

  lemma ProofsTwiceTheSame(was: Proofs, mid: Proofs, now: Proofs)
    requires SameProofs(was, mid) && SameProofs(mid, now)
    ensures SameProofs(was, now)
  {
    forall id | id in was ensures SameProof(was[id], now[id]) {
      assert SameProof(was[id], mid[id]) && SameProof(mid[id], now[id]);
    }
  }

  /** One event: an old one changes nothing; a new one touches each part on its own. */
  lemma OneDelivered(s: S.Store, contractId: Str, e: S.ChainEvent)
    ensures var after := Deliver(s, contractId, e);
            after.events.Keys == s.events.Keys + {e.id} && SameProofs(s.proofs, after.proofs)
            && after.proofs == (if e.id in s.events then s.proofs else ProofsWith(s.proofs, e.logged))
            && after.settlements
            == (if e.id in s.events then s.settlements else RecordsWith(s.settlements, s.proofs, contractId, e))
            && after.fingerprints
            == (if e.id in s.events then s.fingerprints else FingerprintsWith(s.fingerprints, s.proofs, e.logged))
  {
    if e.id !in s.events {
      DeliverParts(s, contractId, e);
      forall id | id in s.proofs
        ensures id in ProofsWith(s.proofs, e.logged) && SameProof(s.proofs[id], ProofsWith(s.proofs, e.logged)[id])
      {
        ProofsStayTheSame(s.proofs, e.logged, id);
      }
    }
  }

  lemma NewAmong(s: S.Store, contractId: Str, es: seq<S.ChainEvent>, n: nat)
    requires n < |es|
    ensures es[n].id !in DeliverAll(s, contractId, es[..n]).events <==> IsNew(s, es, n)
  {
    DeliveryKeepsProofs(s, contractId, es[..n]);
    assert forall j :: 0 <= j < n ==> es[..n][j] == es[j];
  }

  lemma PaymentAmongMore(s: S.Store, es: seq<S.ChainEvent>, n: nat, i: nat)
    requires i < n <= |es|
    ensures IsPayment(s, es[..n], i) <==> IsPayment(s, es, i)
    ensures es[..n][i] == es[i]
  {
    assert forall j :: 0 <= j <= i ==> es[..n][j] == es[j];
  }

  ghost predicate RecordsTell(s: S.Store, contractId: Str, es: seq<S.ChainEvent>, after: Records) {
    (forall p :: p in s.settlements ==> p in after && after[p] == s.settlements[p])
    && (forall p :: p in after && p !in s.settlements ==> RecordTold(s, contractId, es, p, after[p]))
    && (forall i :: IsPayment(s, es, i) ==> s.proofs[es[i].logged.event.id].payableId in after)
  }

  /** The records a delivery leaves: every earlier one as it was, each new one tells a payment delivered here, with
      the fields of the proof it paid, and no payment of a kept proof is missing. */
  lemma {:induction false} DeliveredRecordsTell(s: S.Store, contractId: Str, es: seq<S.ChainEvent>)
    ensures RecordsTell(s, contractId, es, DeliverAll(s, contractId, es).settlements)
  {
    if es != [] {
      var n := |es| - 1;
      var before := DeliverAll(s, contractId, es[..n]);
      DeliveredRecordsTell(s, contractId, es[..n]);
      DeliveryKeepsProofs(s, contractId, es[..n]);
      NewAmong(s, contractId, es, n);
      OneDelivered(before, contractId, es[n]);
      OneMoreRecordTells(s, contractId, es, n, before.settlements, before.proofs);
    }
  }

  lemma OneMoreRecordTells(s: S.Store, contractId: Str, es: seq<S.ChainEvent>, n: nat, before: Records, proofs: Proofs)
    requires |es| == n + 1 && RecordsTell(s, contractId, es[..n], before) && SameProofs(s.proofs, proofs)
    ensures RecordsTell(s, contractId, es,
                        if IsNew(s, es, n) then RecordsWith(before, proofs, contractId, es[n]) else before)
  {
    var e := es[n].logged;
    var after := if IsNew(s, es, n) then RecordsWith(before, proofs, contractId, es[n]) else before;
    forall p | p in after && p !in s.settlements ensures RecordTold(s, contractId, es, p, after[p]) {
      if p in before {
        RecordStaysTold(s, contractId, es, n, p, before[p]);
      } else {
        assert IsPayment(s, es, n) && SameProof(s.proofs[e.event.id], proofs[e.event.id]);
      }
    }
    forall i | IsPayment(s, es, i) ensures s.proofs[es[i].logged.event.id].payableId in after {
      if i < n {
        PaymentAmongMore(s, es, n, i);
      } else {
        assert SameProof(s.proofs[e.event.id], proofs[e.event.id]);
      }
    }
  }

  lemma RecordStaysTold(s: S.Store, contractId: Str, es: seq<S.ChainEvent>, n: nat, p: Str, r: S.SettlementRecord)
    requires n <= |es| && RecordTold(s, contractId, es[..n], p, r)
    ensures RecordTold(s, contractId, es, p, r)
  {
    var i :| IsPayment(s, es[..n], i) && p == s.proofs[es[..n][i].logged.event.id].payableId
             && TellsThePayment(r, s.proofs[es[..n][i].logged.event.id], contractId, es[..n][i].logged);
    PaymentAmongMore(s, es, n, i);
  }

  ghost predicate NotesTell(s: S.Store, es: seq<S.ChainEvent>, after: map<Str, Str>) {
    (forall f :: f in s.fingerprints ==> f in after && after[f] == s.fingerprints[f])
    && (forall f :: f in after && f !in s.fingerprints ==> NoteTold(s, es, f, after[f]))
    && (forall i :: IsPayment(s, es, i) ==>
          var p := s.proofs[es[i].logged.event.id];
          p.vendorId + Ascii("|") + p.amount in after)
  }

  /** The same of the settled fingerprints: earlier notes stand, each new one tells a payment delivered here, and
      every payment delivered has its vendor and amount among them. */
  lemma {:induction false} DeliveredNotesTell(s: S.Store, contractId: Str, es: seq<S.ChainEvent>)
    ensures NotesTell(s, es, DeliverAll(s, contractId, es).fingerprints)
  {
    if es != [] {
      var n := |es| - 1;
      var before := DeliverAll(s, contractId, es[..n]);
      DeliveredNotesTell(s, contractId, es[..n]);
      DeliveryKeepsProofs(s, contractId, es[..n]);
      NewAmong(s, contractId, es, n);
      OneDelivered(before, contractId, es[n]);
      OneMoreNoteTells(s, es, n, before.fingerprints, before.proofs);
    }
  }

  lemma OneMoreNoteTells(s: S.Store, es: seq<S.ChainEvent>, n: nat, before: map<Str, Str>, proofs: Proofs)
    requires |es| == n + 1 && NotesTell(s, es[..n], before) && SameProofs(s.proofs, proofs)
    ensures NotesTell(s, es, if IsNew(s, es, n) then FingerprintsWith(before, proofs, es[n].logged) else before)
  {
    var e := es[n].logged;
    var after := if IsNew(s, es, n) then FingerprintsWith(before, proofs, e) else before;
    forall f | f in after && f !in s.fingerprints ensures NoteTold(s, es, f, after[f]) {
      if f in before {
        NoteStaysTold(s, es, n, f, before[f]);
      } else {
        assert IsPayment(s, es, n) && SameProof(s.proofs[e.event.id], proofs[e.event.id]);
      }
    }
    forall i | IsPayment(s, es, i)
      ensures var p := s.proofs[es[i].logged.event.id];
              p.vendorId + Ascii("|") + p.amount in after
    {
      if i < n {
        PaymentAmongMore(s, es, n, i);
      } else {
        assert SameProof(s.proofs[e.event.id], proofs[e.event.id]);
      }
    }
  }

  lemma NoteStaysTold(s: S.Store, es: seq<S.ChainEvent>, n: nat, f: Str, note: Str)
    requires n <= |es| && NoteTold(s, es[..n], f, note)
    ensures NoteTold(s, es, f, note)
  {
    var i :| IsPayment(s, es[..n], i)
             && NotesThePayment(f, note, s.proofs[es[..n][i].logged.event.id], es[..n][i].logged);
    PaymentAmongMore(s, es, n, i);
  }

  // ------------------------------------------------------------- the statuses

  /** The statuses a proof passes through: only SIGNED can become REGISTERED, and closing can happen from any. */
  ghost predicate MayTell(e: Event, id: Bytes32, was: S.ProofStatus, now: S.ProofStatus) {
    match now
    case Signed => false
    case Registered => was.Signed? && e.PayableRegistered? && e.id == id
    case Settled => e.SettlementExecuted? && e.id == id
    case Expired => e.PayableExpired? && e.id == id
    case Revoked => e.PayableRevoked? && e.id == id
  }

  /** The new event that last spoke of a proof: nothing new after it would change the status it gave. */
  ghost predicate Speaks(e: Event, id: Bytes32, was: S.ProofStatus) {
    MayTell(e, id, was, S.Registered) || MayTell(e, id, was, S.Settled) || MayTell(e, id, was, S.Expired)
    || MayTell(e, id, was, S.Revoked)
  }

  /** The proof as an event leaves it. */
  ghost predicate TellsStatus(e: LoggedEvent, isNew: bool, id: Bytes32, was: S.ProofRecord, now: S.ProofRecord) {
    if isNew && Speaks(e.event, id, was.status)
    then SameProof(was, now) && MayTell(e.event, id, was.status, now.status)
      && now.registerTx == (if now.status.Registered? then Some(e.tx) else was.registerTx)
    else now == was
  }

  /** One new event: the proof it speaks of takes exactly the status it tells, a REGISTERED one its transaction as
      well; every other proof stays. An event stored before changes nothing. */
  lemma EventTellsStatus(s: S.Store, contractId: Str, e: S.ChainEvent, id: Bytes32)
    requires id in s.proofs
    ensures id in Deliver(s, contractId, e).proofs
            && TellsStatus(e.logged, e.id !in s.events, id, s.proofs[id], Deliver(s, contractId, e).proofs[id])
  {
    OneDelivered(s, contractId, e);
    ProofTold(s.proofs, e.logged, id);
  }

  lemma ProofTold(proofs: Proofs, e: LoggedEvent, id: Bytes32)
    requires id in proofs
    ensures id in ProofsWith(proofs, e) && TellsStatus(e, true, id, proofs[id], ProofsWith(proofs, e)[id])
  {
  }

  // --------------------------------------------------------------- the report

  /** A payment no proof is kept for, seen for the first time. */
  ghost predicate IsUnknown(s: S.Store, es: seq<S.ChainEvent>, i: int, id: Bytes32) {
    0 <= i < |es| && IsNew(s, es, i) && es[i].logged.event.SettlementExecuted? && es[i].logged.event.id == id
    && id !in s.proofs
  }

  ghost predicate Unknown(s: S.Store, es: seq<S.ChainEvent>, id: Bytes32) {
    exists i :: IsUnknown(s, es, i, id)
  }

  ghost predicate Distinct(names: seq<Str>) {
    forall i, j :: 0 <= i < j < |names| ==> names[i] != names[j]
  }

  ghost predicate NamesTold(s: S.Store, after: Records, names: seq<Str>) {
    Distinct(names) && forall p :: p in names <==> p in after && p !in s.settlements
  }

  ghost predicate UnknownTold(s: S.Store, es: seq<S.ChainEvent>, ids: seq<Bytes32>) {
    forall id :: id in ids <==> Unknown(s, es, id)
  }

  /** The report names each newly recorded payable once and nothing else, and lists exactly the payments that no
      kept proof explains. */
  lemma {:induction false} ReportTells(s: S.Store, contractId: Str, es: seq<S.ChainEvent>)
    ensures var r, after := ReportedAll(s, contractId, es, NO_REPORT), DeliverAll(s, contractId, es);
            NamesTold(s, after.settlements, r.settlementsRecorded) && UnknownTold(s, es, r.unknownSettlements)
  {
    if es == [] {
      assert forall id :: !Unknown(s, es, id);
    } else {
      var n := |es| - 1;
      var before, r := DeliverAll(s, contractId, es[..n]), ReportedAll(s, contractId, es[..n], NO_REPORT);
      ReportTells(s, contractId, es[..n]);
      DeliveryKeepsProofs(s, contractId, es[..n]);
      NewAmong(s, contractId, es, n);
      DeliveredRecordsTell(s, contractId, es[..n]);
      NamesReported(s, before, contractId, es[n], r);
      UnknownReported(s, es, n, before, r);
    }
  }

  lemma UnknownReported(s: S.Store, es: seq<S.ChainEvent>, n: nat, before: S.Store, r: Report)
    requires |es| == n + 1 && SameProofs(s.proofs, before.proofs) && UnknownTold(s, es[..n], r.unknownSettlements)
    requires es[n].id !in before.events <==> IsNew(s, es, n)
    ensures UnknownTold(s, es, Reported(before, es[n], r).unknownSettlements)
  {
    forall id ensures id in Reported(before, es[n], r).unknownSettlements <==> Unknown(s, es, id) {
      UnknownAmongMore(s, es, n, id);
    }
  }

  lemma NamesReported(s: S.Store, before: S.Store, contractId: Str, e: S.ChainEvent, r: Report)
    requires forall p :: p in s.settlements ==> p in before.settlements
    requires NamesTold(s, before.settlements, r.settlementsRecorded)
    ensures NamesTold(s, Deliver(before, contractId, e).settlements, Reported(before, e, r).settlementsRecorded)
  {
    OneDelivered(before, contractId, e);
  }

  lemma UnknownAmongMore(s: S.Store, es: seq<S.ChainEvent>, n: nat, id: Bytes32)
    requires |es| == n + 1
    ensures Unknown(s, es, id) <==> Unknown(s, es[..n], id) || IsUnknown(s, es, n, id)
  {
    assert forall i :: 0 <= i < n ==> es[..n][i] == es[i];
    if i :| IsUnknown(s, es, i, id) && i < n {
      assert IsUnknown(s, es[..n], i, id);
    }
    if i :| IsUnknown(s, es[..n], i, id) {
      assert IsUnknown(s, es, i, id);
    }
  }
}
