/** The settlement store: five maps shared by every backend process. */
module SettlementStore {
  import opened Primitives
  import GateSpec

  type TxHash = GateSpec.TxHash

  datatype ProofStatus = Signed | Registered | Settled | Expired | Revoked

  datatype ProofRecord = ProofRecord(
    payableId: Str, idHash: Bytes32, proofHash: Bytes32, invoiceId: Str, poId: Str, vendorId: Str, amount: Str,
    asset: Str, expiry: u64, status: ProofStatus, registerTx: Option<TxHash>)

  datatype ErpPosting = Pending | Reconciled | Failed

  datatype SettlementRecord = SettlementRecord(
    payableId: Str, invoiceId: Str, poId: Str, proofHash: Bytes32, contractId: Str, asset: Str, amount: Str,
    tx: TxHash, ledger: nat, erp: ErpPosting)

  /** An event as the RPC reports it; `id` is its globally unique event id. */
  datatype ChainEvent = ChainEvent(id: nat, logged: GateSpec.LoggedEvent)

  datatype Cursor = Cursor(cursor: Option<nat>, ledger: nat)

  datatype Store = Store(
    proofs: map<Bytes32, ProofRecord>, settlements: map<Str, SettlementRecord>, events: map<nat, ChainEvent>,
    cursors: map<Str, Cursor>, fingerprints: map<Str, Str>)

  const EMPTY: Store := Store(map[], map[], map[], map[], map[])

  /** The payable an event is about, when its second topic is a 32-byte id. */
  function Subject(e: GateSpec.Event): Option<Bytes32> {
    match e
    case VaultWithdrawn(_, _) => None
    case AdminChanged(_) => None
    case TreasuryChanged(_) => None
    case _ => Some(e.id)
  }

  function UpsertProof(s: Store, p: ProofRecord): Store {
    s.(proofs := s.proofs[p.idHash := p])
  }

  function GetProof(s: Store, idHash: Bytes32): Option<ProofRecord> {
    if idHash in s.proofs then Some(s.proofs[idHash]) else None
  }

  /** Unknown proofs are ignored; a missing transaction leaves the stored one. */
  function SetProofStatus(s: Store, idHash: Bytes32, status: ProofStatus, tx: Option<TxHash>): Store {
    if idHash !in s.proofs then s
    else
      var p := s.proofs[idHash];
      s.(proofs := s.proofs[idHash := p.(status := status, registerTx := if tx.Some? then tx else p.registerTx)])
  }

  function OpenRegistrations(s: Store): set<Bytes32> {
    set h | h in s.proofs && s.proofs[h].status.Registered?
  }

  /** The first record for a payable stands. */
  function RecordSettlement(s: Store, r: SettlementRecord): Store {
    if r.payableId in s.settlements then s else s.(settlements := s.settlements[r.payableId := r])
  }

  function GetSettlement(s: Store, payableId: Str): Option<SettlementRecord> {
    if payableId in s.settlements then Some(s.settlements[payableId]) else None
  }

  function RecordChainEvent(s: Store, e: ChainEvent): Store {
    if e.id in s.events then s else s.(events := s.events[e.id := e])
  }

  function SetCursor(s: Store, name: Str, c: Cursor): Store {
    s.(cursors := s.cursors[name := c])
  }

  function AddFingerprint(s: Store, fingerprint: Str, note: Str): Store {
    if fingerprint in s.fingerprints then s else s.(fingerprints := s.fingerprints[fingerprint := note])
  }

  // ------------------------------------------- what is read back after writing

  /** Each write is read back by its own lookup, and no other key and no other part of the store moves. */
  lemma WritesReadBack(s: Store, p: ProofRecord, h: Bytes32, r: SettlementRecord, name: Str)
    ensures GetProof(UpsertProof(s, p), h) == if h == p.idHash then Some(p) else GetProof(s, h)
    ensures UpsertProof(s, p).(proofs := s.proofs) == s
    ensures GetSettlement(RecordSettlement(s, r), name)
            == if name == r.payableId && GetSettlement(s, name).None? then Some(r) else GetSettlement(s, name)
    ensures RecordSettlement(s, r).(settlements := s.settlements) == s
  {
  }

  function RecordAll(s: Store, rs: seq<SettlementRecord>): Store {
    if rs == [] then s else RecordSettlement(RecordAll(s, rs[..|rs| - 1]), rs[|rs| - 1])
  }

  /** The k-th is the first of these records that names the payable. */
  predicate IsFirstFor(rs: seq<SettlementRecord>, payableId: Str, k: int) {
    0 <= k < |rs| && rs[k].payableId == payableId && forall j :: 0 <= j < k ==> rs[j].payableId != payableId
  }

  /** The record found for a payable: the one there was, else the first of these. */
  ghost predicate FirstStands(was: Option<SettlementRecord>, rs: seq<SettlementRecord>, payableId: Str,
                              found: Option<SettlementRecord>) {
    if was.Some? then found == was
    else
      (found.None? <==> forall k :: 0 <= k < |rs| ==> rs[k].payableId != payableId)
      && forall k :: IsFirstFor(rs, payableId, k) ==> found == Some(rs[k])
  }

  /** However many records are written for a payable, the one that stands is the one there was, else the first. */
  lemma {:induction false} FirstRecordStands(s: Store, rs: seq<SettlementRecord>, payableId: Str)
    ensures FirstStands(GetSettlement(s, payableId), rs, payableId, GetSettlement(RecordAll(s, rs), payableId))
    ensures RecordAll(s, rs).(settlements := s.settlements) == s
  {
    if rs != [] {
      var n := |rs| - 1;
      FirstRecordStands(s, rs[..n], payableId);
      OneMoreRecord(GetSettlement(s, payableId), rs, n, payableId, GetSettlement(RecordAll(s, rs[..n]), payableId));
    }
  }

  lemma OneMoreRecord(was: Option<SettlementRecord>, rs: seq<SettlementRecord>, n: nat, payableId: Str,
                      found: Option<SettlementRecord>)
    requires |rs| == n + 1 && FirstStands(was, rs[..n], payableId, found)
    ensures FirstStands(was, rs, payableId,
                        if payableId == rs[n].payableId && found.None? then Some(rs[n]) else found)
  {
    assert forall j :: 0 <= j < n ==> rs[..n][j] == rs[j];
    assert forall k :: 0 <= k < n ==> (IsFirstFor(rs, payableId, k) <==> IsFirstFor(rs[..n], payableId, k));
  }

  function MarkAll(s: Store, idHash: Bytes32, marks: seq<(ProofStatus, Option<TxHash>)>): Store {
    if marks == [] then s
    else
      var n := |marks| - 1;
      SetProofStatus(MarkAll(s, idHash, marks[..n]), idHash, marks[n].0, marks[n].1)
  }

  /** The k-th mark is the last that carries a transaction. */
  predicate IsLastTx(marks: seq<(ProofStatus, Option<TxHash>)>, k: int) {
    0 <= k < |marks| && marks[k].1.Some? && forall j :: k < j < |marks| ==> marks[j].1.None?
  }

  predicate NoTx(marks: seq<(ProofStatus, Option<TxHash>)>) {
    forall j :: 0 <= j < |marks| ==> marks[j].1.None?
  }

  ghost predicate LastStands(was: ProofRecord, marks: seq<(ProofStatus, Option<TxHash>)>, now: ProofRecord) {
    now == was.(status := if marks == [] then was.status else marks[|marks| - 1].0, registerTx := now.registerTx)
    && (NoTx(marks) ==> now.registerTx == was.registerTx)
    && forall k :: IsLastTx(marks, k) ==> now.registerTx == marks[k].1
  }

  /** However often a proof is marked: its status is the last one given, its transaction the last one named, nothing
      else of it moves, nothing else in the store does, and an unknown proof stays unknown. */
  lemma {:induction false} LastStatusStands(s: Store, idHash: Bytes32, marks: seq<(ProofStatus, Option<TxHash>)>)
    ensures var after := MarkAll(s, idHash, marks);
            after.(proofs := s.proofs) == s && after.proofs.Keys == s.proofs.Keys
            && (forall h :: h in s.proofs && h != idHash ==> after.proofs[h] == s.proofs[h])
            && (idHash in s.proofs ==> LastStands(s.proofs[idHash], marks, after.proofs[idHash]))
  {
    if marks != [] {
      var n := |marks| - 1;
      LastStatusStands(s, idHash, marks[..n]);
      if idHash in s.proofs {
        OneMoreMark(s.proofs[idHash], marks, n, MarkAll(s, idHash, marks[..n]).proofs[idHash]);
      }
    }
  }

  lemma OneMoreMark(was: ProofRecord, marks: seq<(ProofStatus, Option<TxHash>)>, n: nat, now: ProofRecord)
    requires |marks| == n + 1 && LastStands(was, marks[..n], now)
    ensures var tx := marks[n].1;
            LastStands(was, marks, now.(status := marks[n].0, registerTx := if tx.Some? then tx else now.registerTx))
  {
    assert forall j :: 0 <= j < n ==> marks[..n][j] == marks[j];
    var tx := if marks[n].1.Some? then marks[n].1 else now.registerTx;
    if NoTx(marks) {
      assert marks[n].1.None? && NoTx(marks[..n]);
    }
    forall k | IsLastTx(marks, k) ensures tx == marks[k].1 {
      if k < n {
        assert marks[n].1.None? && IsLastTx(marks[..n], k);
      }
    }
  }

  // -------------------------------------------------------- looking up events

  predicate IsSettlementOf(e: ChainEvent, idHash: Bytes32) {
    e.logged.event.SettlementExecuted? && e.logged.event.id == idHash
  }

  /** A recorded settlement event of the payable that no other one follows. */
  predicate IsLatestSettlement(events: map<nat, ChainEvent>, idHash: Bytes32, k: nat) {
    k in events && IsSettlementOf(events[k], idHash)
    && forall i :: i in events && IsSettlementOf(events[i], idHash) ==>
      events[i].logged.ledger <= events[k].logged.ledger
  }

  ghost function LatestSettlement(events: map<nat, ChainEvent>, idHash: Bytes32): (found: Option<ChainEvent>)
    ensures found.None? <==> forall i :: i in events ==> !IsSettlementOf(events[i], idHash)
    ensures found.Some? ==> exists k :: IsLatestSettlement(events, idHash, k) && found.value == events[k]
  {
    LatestExists(events, idHash, events.Keys);
    if exists k :: IsLatestSettlement(events, idHash, k) then
      var k :| IsLatestSettlement(events, idHash, k);
      Some(events[k])
    else None
  }

  ghost function FindSettlementEvent(s: Store, idHash: Bytes32): (found: Option<ChainEvent>)
    ensures found.None? <==> forall i :: i in s.events ==> !IsSettlementOf(s.events[i], idHash)
    ensures found.Some? ==> exists k :: IsLatestSettlement(s.events, idHash, k) && found.value == s.events[k]
  {
    LatestSettlement(s.events, idHash)
  }

  /** What a lookup finds: a stored payment of that payable with no later one, and nothing only when there is none. */
  lemma NothingLater(s: Store, idHash: Bytes32, i: nat)
    requires i in s.events && s.events[i].logged.event.SettlementExecuted? && s.events[i].logged.event.id == idHash
    ensures var found := FindSettlementEvent(s, idHash);
            found.Some? && found.value in s.events.Values
            && found.value.logged.event.SettlementExecuted? && found.value.logged.event.id == idHash
            && s.events[i].logged.ledger <= found.value.logged.ledger
  {
    assert IsSettlementOf(s.events[i], idHash);
  }

  ghost predicate LatestAmong(events: map<nat, ChainEvent>, idHash: Bytes32, ids: set<nat>, k: nat) {
    k in ids && k in events && IsSettlementOf(events[k], idHash)
    && forall i :: i in ids && i in events && IsSettlementOf(events[i], idHash) ==>
      events[i].logged.ledger <= events[k].logged.ledger
  }

  lemma {:induction false} LatestExists(events: map<nat, ChainEvent>, idHash: Bytes32, ids: set<nat>)
    requires ids <= events.Keys
    ensures (exists i :: i in ids && IsSettlementOf(events[i], idHash)) ==>
            exists k :: LatestAmong(events, idHash, ids, k)
    ensures ids == events.Keys && (exists i :: i in ids && IsSettlementOf(events[i], idHash)) ==>
              exists k :: IsLatestSettlement(events, idHash, k)
    decreases |ids|
  {
    if i :| i in ids && IsSettlementOf(events[i], idHash) {
      var rest := ids - {i};
      LatestExists(events, idHash, rest);
      var best := i;
      if j :| j in rest && IsSettlementOf(events[j], idHash) {
        var k :| LatestAmong(events, idHash, rest, k);
        if events[k].logged.ledger >= events[i].logged.ledger {
          best := k;
        }
      }
      assert LatestAmong(events, idHash, ids, best);
      if ids == events.Keys {
        assert IsLatestSettlement(events, idHash, best);
      }
    }
  }

  // ------------------------------------------------------------- in memory

  class MemorySettlementStore {
    var proofs: map<Bytes32, ProofRecord>
    var settlements: map<Str, SettlementRecord>
    var events: map<nat, ChainEvent>
    var cursors: map<Str, Cursor>
    var fingerprints: map<Str, Str>

    function State(): Store
      reads this
    {
      Store(proofs, settlements, events, cursors, fingerprints)
    }

    constructor ()
      ensures State() == EMPTY
    {
      proofs, settlements, events, cursors, fingerprints := map[], map[], map[], map[], map[];
    }

    method Upsert(p: ProofRecord)
      modifies this`proofs
      ensures State() == old(UpsertProof(State(), p))
    {
      proofs := proofs[p.idHash := p];
    }

    method ProofByIdHash(idHash: Bytes32) returns (p: Option<ProofRecord>)
      ensures p == GetProof(State(), idHash)
    {
      p := if idHash in proofs then Some(proofs[idHash]) else None;
    }

    method SetStatus(idHash: Bytes32, status: ProofStatus, tx: Option<TxHash>)
      modifies this`proofs
      ensures State() == old(SetProofStatus(State(), idHash, status, tx))
    {
      if idHash !in proofs {
        return;
      }
      var p := proofs[idHash].(status := status);
      if tx.Some? {
        p := p.(registerTx := tx);
      }
      proofs := proofs[idHash := p];
    }

    method Record(r: SettlementRecord)
      modifies this`settlements
      ensures State() == old(RecordSettlement(State(), r))
    {
      if r.payableId !in settlements {
        settlements := settlements[r.payableId := r];
      }
    }

    method SettlementOf(payableId: Str) returns (r: Option<SettlementRecord>)
      ensures r == GetSettlement(State(), payableId)
    {
      r := if payableId in settlements then Some(settlements[payableId]) else None;
    }

    method RecordEvent(e: ChainEvent) returns (isNew: bool)
      modifies this`events
      ensures State() == old(RecordChainEvent(State(), e)) && isNew == (e.id !in old(events))
    {
      if e.id in events {
        return false;
      }
      events := events[e.id := e];
      return true;
    }

    /** Filters, then takes the first of a descending sort by ledger. */
    method FindEvent(idHash: Bytes32) returns (found: Option<ChainEvent>)
      ensures found.None? <==> forall i :: i in events ==> !IsSettlementOf(events[i], idHash)
      ensures found.Some? ==> exists k :: IsLatestSettlement(events, idHash, k) && found.value == events[k]
    {
      var left := events.Keys;
      ghost var best := 0;
      found := None;
      while left != {}
        invariant left <= events.Keys
        invariant found.None? ==> forall i :: i in events && i !in left ==> !IsSettlementOf(events[i], idHash)
        invariant found.Some? ==> LatestAmong(events, idHash, events.Keys - left, best) && found.value == events[best]
      {
        var i :| i in left;
        left := left - {i};
        if IsSettlementOf(events[i], idHash) && (found.None? || events[i].logged.ledger > found.value.logged.ledger) {
          found := Some(events[i]);
          best := i;
        }
      }
      if found.Some? {
        assert IsLatestSettlement(events, idHash, best);
      }
    }

    method SaveCursor(name: Str, c: Cursor)
      modifies this`cursors
      ensures State() == old(SetCursor(State(), name, c))
    {
      cursors := cursors[name := c];
    }

    method AddSettledFingerprint(fingerprint: Str, note: Str)
      modifies this`fingerprints
      ensures State() == old(AddFingerprint(State(), fingerprint, note))
    {
      if fingerprint !in fingerprints {
        fingerprints := fingerprints[fingerprint := note];
      }
    }
  }
}
