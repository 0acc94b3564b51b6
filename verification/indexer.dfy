/** The event indexer: a fold over delivered events whose result does not depend on how they were delivered. */
module Indexing {
  import opened Primitives
  import opened GateSpec
  import opened GateInvariants
  import opened Protocol
  import opened ProtocolSafety
  import S = SettlementStore

  datatype Report = Report(fetched: nat, recorded: nat, settlementsRecorded: seq<Str>, unknownSettlements: seq<Bytes32>)

  const NO_REPORT: Report := Report(0, 0, [], [])

  /** `#project`: what one new event writes. */
  function Project(s: S.Store, contractId: Str, e: S.ChainEvent): S.Store {
    var event := e.logged.event;
    match S.Subject(event)
    case None => s
    case Some(id) =>
      match StatusByEvent(event)
      case Some(status) =>
        if id in s.proofs && (!status.Registered? || s.proofs[id].status.Signed?)
        then S.SetProofStatus(s, id, status, if status.Registered? then Some(e.logged.tx) else None)
        else s
      case None =>
        if !event.SettlementExecuted? || id !in s.proofs then s
        else
          var proof := s.proofs[id];
          S.AddFingerprint(
            S.SetProofStatus(S.RecordSettlement(s, RecordFromEvent(proof, contractId, e)), id, S.Settled, None),
            VendorFingerprint(proof), Note(proof.payableId, e.logged.tx))
  }

  /** Recorded raw first; only an event seen for the first time is projected. */
  function Deliver(s: S.Store, contractId: Str, e: S.ChainEvent): S.Store {
    if e.id in s.events then s else Project(S.RecordChainEvent(s, e), contractId, e)
  }

  function DeliverAll(s: S.Store, contractId: Str, es: seq<S.ChainEvent>): S.Store {
    if es == [] then s else Deliver(DeliverAll(s, contractId, es[..|es| - 1]), contractId, es[|es| - 1])
  }

  /** What `#project` adds to the report. */
  function ProjectReport(s: S.Store, e: S.ChainEvent, r: Report): Report {
    var event := e.logged.event;
    if !event.SettlementExecuted? then r
    else if event.id !in s.proofs then r.(unknownSettlements := r.unknownSettlements + [event.id])
    else if s.proofs[event.id].payableId in s.settlements then r
    else r.(settlementsRecorded := r.settlementsRecorded + [s.proofs[event.id].payableId])
  }

  function Reported(s: S.Store, e: S.ChainEvent, r: Report): Report {
    if e.id in s.events then r else ProjectReport(S.RecordChainEvent(s, e), e, r.(recorded := r.recorded + 1))
  }

  function ReportedAll(s: S.Store, contractId: Str, es: seq<S.ChainEvent>, r: Report): Report {
    if es == [] then r
    else
      var n := |es| - 1;
      Reported(DeliverAll(s, contractId, es[..n]), es[n], ReportedAll(s, contractId, es[..n], r))
  }

  // ------------------------------------------------- the parts of the store

  type Proofs = map<Bytes32, S.ProofRecord>

  function ProofsWith(proofs: Proofs, e: LoggedEvent): Proofs {
    match e.event
    case PayableRegistered(id, _) =>
      if id in proofs && proofs[id].status.Signed?
      then proofs[id := proofs[id].(status := S.Registered, registerTx := Some(e.tx))]
      else proofs
    case SettlementExecuted(id, _, _, _) =>
      if id in proofs then proofs[id := proofs[id].(status := S.Settled)] else proofs
    case PayableExpired(id, _) => if id in proofs then proofs[id := proofs[id].(status := S.Expired)] else proofs
    case PayableRevoked(id, _) => if id in proofs then proofs[id := proofs[id].(status := S.Revoked)] else proofs
    case _ => proofs
  }

  function RecordsWith(settlements: map<Str, S.SettlementRecord>, proofs: Proofs, contractId: Str,
                       e: S.ChainEvent): map<Str, S.SettlementRecord> {
    var event := e.logged.event;
    if event.SettlementExecuted? && event.id in proofs && proofs[event.id].payableId !in settlements
    then settlements[proofs[event.id].payableId := RecordFromEvent(proofs[event.id], contractId, e)]
    else settlements
  }

  function FingerprintsWith(fingerprints: map<Str, Str>, proofs: Proofs, e: LoggedEvent): map<Str, Str> {
    if e.event.SettlementExecuted? && e.event.id in proofs && VendorFingerprint(proofs[e.event.id]) !in fingerprints
    then fingerprints[VendorFingerprint(proofs[e.event.id]) := Note(proofs[e.event.id].payableId, e.tx)]
    else fingerprints
  }

  /** A new event touches each part of the store on its own. */
  lemma DeliverParts(s: S.Store, contractId: Str, e: S.ChainEvent)
    requires e.id !in s.events
    ensures Deliver(s, contractId, e) ==
              S.Store(ProofsWith(s.proofs, e.logged), RecordsWith(s.settlements, s.proofs, contractId, e),
                      s.events[e.id := e],
                      s.cursors, FingerprintsWith(s.fingerprints, s.proofs, e.logged))
  {
  }

  // ------------------------------------------------------- the closed form

  function TerminalStatus(status: Status): S.ProofStatus {
    match status
    case Ready => S.Registered
    case Settled => S.Settled
    case Expired => S.Expired
    case Revoked => S.Revoked
  }

  predicate ClosedIn(g: Gate, delivered: set<nat>, id: Bytes32) {
    id in g.payables && id in g.history.closed && g.history.closed[id] in delivered
  }

  predicate PaidInSet(g: Gate, delivered: set<nat>, id: Bytes32) {
    ClosedIn(g, delivered, id) && g.payables[id].status.Settled?
  }

  predicate RegisteredIn(g: Gate, delivered: set<nat>, id: Bytes32) {
    id in g.history.readied && g.history.readied[id] > 0 && g.history.readied[id] - 1 in delivered
  }

  /** The status a set of delivered events leaves a proof with, whatever their order. */
  function StatusAfter(g: Gate, was: S.ProofStatus, delivered: set<nat>, id: Bytes32): S.ProofStatus {
    if ClosedIn(g, delivered, id) then TerminalStatus(g.payables[id].status)
    else if RegisteredIn(g, delivered, id) && was.Signed? then S.Registered
    else was
  }

  /** Everything but the status and the registering transaction. */
  predicate SameProof(p: S.ProofRecord, q: S.ProofRecord) {
    p == q.(status := p.status, registerTx := p.registerTx)
  }

  ghost predicate EventsAre(g: Gate, s: S.Store, delivered: set<nat>) {
    s.events.Keys == delivered && forall i :: i in s.events ==> s.events[i].id == i && Authentic(g, s.events[i])
  }

  ghost predicate ProofsAre(g: Gate, was: Proofs, now: Proofs, delivered: set<nat>) {
    now.Keys == was.Keys && forall id :: id in was ==> ProofIs(g, was[id], now[id], delivered, id)
  }

  predicate ProofIs(g: Gate, was: S.ProofRecord, now: S.ProofRecord, delivered: set<nat>, id: Bytes32) {
    SameProof(was, now) && now.status == StatusAfter(g, was.status, delivered, id)
  }

  ghost function PaidNames(g: Gate, proofs: Proofs, delivered: set<nat>): set<Str> {
    set id | id in proofs && PaidInSet(g, delivered, id) :: proofs[id].payableId
  }

  ghost function PaidFingerprints(g: Gate, proofs: Proofs, delivered: set<nat>): set<Str> {
    set id | id in proofs && PaidInSet(g, delivered, id) :: VendorFingerprint(proofs[id])
  }

  ghost function EventAt(g: Gate, k: nat): S.ChainEvent
    requires k < |g.history.log|
  {
    S.ChainEvent(k, g.history.log[k])
  }

  type Records = map<Str, S.SettlementRecord>

  predicate RecordIs(g: Gate, proofs: Proofs, was: Records, now: Records, contractId: Str, id: Bytes32)
    requires id in proofs && id in g.history.closed && g.history.closed[id] < |g.history.log|
  {
    var p := proofs[id].payableId;
    p in now
    && now[p] == if p in was then was[p]
                 else RecordFromEvent(proofs[id], contractId,
                                      S.ChainEvent(g.history.closed[id], g.history.log[g.history.closed[id]]))
  }

  ghost predicate RecordsAre(g: Gate, proofs: Proofs, was: Records, now: Records, contractId: Str,
                             delivered: set<nat>) {
    now.Keys == was.Keys + PaidNames(g, proofs, delivered)
    && (forall p :: p in was ==> now[p] == was[p])
    && (forall id :: id in proofs && PaidInSet(g, delivered, id) && g.history.closed[id] < |g.history.log| ==>
          RecordIs(g, proofs, was, now, contractId, id))
  }

  ghost predicate FingerprintsAre(g: Gate, proofs: Proofs, was: set<Str>, now: set<Str>, delivered: set<nat>) {
    now == was + PaidFingerprints(g, proofs, delivered)
  }

  /** The store after exactly these events, in any order, starting from s0. */
  ghost predicate Projected(g: Gate, s0: S.Store, s: S.Store, contractId: Str, delivered: set<nat>) {
    EventsAre(g, s, delivered) && ProofsAre(g, s0.proofs, s.proofs, delivered)
    && RecordsAre(g, s0.proofs, s0.settlements, s.settlements, contractId, delivered)
    && FingerprintsAre(g, s0.proofs, s0.fingerprints.Keys, s.fingerprints.Keys, delivered)
  }

  // ----------------------------------------------------- one event at a time

  /** Proofs sit under the hash of their own name, so two of them never share one. */
  ghost predicate Keyed(crypto: Crypto, proofs: Proofs) {
    forall id :: id in proofs ==> IdOf(crypto, proofs[id].payableId) == id
  }

  lemma ClosedGrows(g: Gate, delivered: set<nat>, k: nat, id: Bytes32)
    ensures ClosedIn(g, delivered + {k}, id)
            <==> ClosedIn(g, delivered, id) || (id in g.payables && id in g.history.closed && g.history.closed[id] == k)
  {
  }

  /** What a delivered event says about ids: the one it is about, and no other. */
  lemma EventSpeaksOf(crypto: Crypto, g: Gate, k: nat, id: Bytes32)
    requires Inv(crypto, g) && k < |g.history.log|
    ensures var e := g.history.log[k].event;
            (id in g.history.closed && g.history.closed[id] == k <==> Closing(e, id))
            && (id in g.history.readied && g.history.readied[id] == k + 1 <==> e.PayableRegistered? && e.id == id)
            && (Closing(e, id) ==> id in g.payables && ClosingEvent(id, g.payables[id], e))
  {
    var h := g.history;
    assert Holds(Log, crypto, g);
    assert Traced(h.log[k].event, k, h.readied, h.closed);
    if id in h.closed {
      assert ClosedAt(h.log, h.closed[id], id, g.payables[id]);
    }
    if id in h.readied {
      assert OpenedAt(h.log, h.readied[id], id, g.payables[id]);
    }
  }

  lemma ProofStep(crypto: Crypto, g: Gate, was: Proofs, now: Proofs, delivered: set<nat>, k: nat)
    requires Inv(crypto, g) && k < |g.history.log| && k !in delivered && ProofsAre(g, was, now, delivered)
    ensures ProofsAre(g, was, ProofsWith(now, g.history.log[k]), delivered + {k})
  {
    var next := ProofsWith(now, g.history.log[k]);
    forall id | id in was ensures id in next && ProofIs(g, was[id], next[id], delivered + {k}, id) {
      ProofIdStep(crypto, g, was, now, delivered, k, id);
    }
  }

  lemma ProofIdStep(crypto: Crypto, g: Gate, was: Proofs, now: Proofs, delivered: set<nat>, k: nat, id: Bytes32)
    requires Inv(crypto, g) && k < |g.history.log| && k !in delivered && id in was && id in now
             && ProofIs(g, was[id], now[id], delivered, id)
    ensures var next := ProofsWith(now, g.history.log[k]);
            id in next && ProofIs(g, was[id], next[id], delivered + {k}, id)
  {
    EventSpeaksOf(crypto, g, k, id);
    ClosedGrows(g, delivered, k, id);
  }

  lemma PaidGrows(crypto: Crypto, g: Gate, delivered: set<nat>, k: nat, id: Bytes32)
    requires Inv(crypto, g) && k < |g.history.log|
    ensures PaidInSet(g, delivered + {k}, id) <==>
              PaidInSet(g, delivered, id)
                || (g.history.log[k].event.SettlementExecuted? && g.history.log[k].event.id == id)
  {
    EventSpeaksOf(crypto, g, k, id);
    ClosedGrows(g, delivered, k, id);
  }

  lemma NamesGrow(crypto: Crypto, g: Gate, proofs: Proofs, delivered: set<nat>, k: nat)
    requires Inv(crypto, g) && k < |g.history.log|
    ensures var e := g.history.log[k].event;
            var paid := e.SettlementExecuted? && e.id in proofs;
            PaidNames(g, proofs, delivered + {k})
              == PaidNames(g, proofs, delivered) + (if paid then {proofs[e.id].payableId} else {})
            && PaidFingerprints(g, proofs, delivered + {k})
              == PaidFingerprints(g, proofs, delivered) + (if paid then {VendorFingerprint(proofs[e.id])} else {})
  {
    forall id ensures PaidInSet(g, delivered + {k}, id) <==>
              PaidInSet(g, delivered, id)
                || (g.history.log[k].event.SettlementExecuted? && g.history.log[k].event.id == id)
    {
      PaidGrows(crypto, g, delivered, k, id);
    }
  }

  lemma FingerprintStep(crypto: Crypto, g: Gate, was: Proofs, now: Proofs, before: set<Str>,
                        fingerprints: map<Str, Str>, delivered: set<nat>, k: nat)
    requires Inv(crypto, g) && k < |g.history.log| && ProofsAre(g, was, now, delivered)
    requires FingerprintsAre(g, was, before, fingerprints.Keys, delivered)
    ensures FingerprintsAre(g, was, before, FingerprintsWith(fingerprints, now, g.history.log[k]).Keys, delivered + {k})
  {
    NamesGrow(crypto, g, was, delivered, k);
    var e := g.history.log[k].event;
    if e.SettlementExecuted? && e.id in was {
      assert ProofIs(g, was[e.id], now[e.id], delivered, e.id);
    }
  }

  /** The stored proofs name and pay the same payables as the ones delivery started from. */
  lemma SameRecordsWith(g: Gate, was: Proofs, now: Proofs, records: Records, contractId: Str, delivered: set<nat>,
                        e: S.ChainEvent)
    requires ProofsAre(g, was, now, delivered)
    ensures RecordsWith(records, now, contractId, e) == RecordsWith(records, was, contractId, e)
  {
    var event := e.logged.event;
    if event.SettlementExecuted? && event.id in was {
      assert ProofIs(g, was[event.id], now[event.id], delivered, event.id);
    }
  }

  lemma RecordNamesStep(crypto: Crypto, g: Gate, was: Proofs, before: Records, records: Records, contractId: Str,
                        delivered: set<nat>, k: nat)
    requires Inv(crypto, g) && k < |g.history.log| && RecordsAre(g, was, before, records, contractId, delivered)
    ensures var next := RecordsWith(records, was, contractId, EventAt(g, k));
            next.Keys == before.Keys + PaidNames(g, was, delivered + {k})
            && forall p :: p in before ==> next[p] == before[p]
  {
    NamesGrow(crypto, g, was, delivered, k);
  }

  lemma RecordStep(crypto: Crypto, g: Gate, was: Proofs, now: Proofs, before: Records, records: Records,
                   contractId: Str, delivered: set<nat>, k: nat)
    requires Inv(crypto, g) && k < |g.history.log| && k !in delivered && Keyed(crypto, was)
             && ProofsAre(g, was, now, delivered)
    requires RecordsAre(g, was, before, records, contractId, delivered)
    ensures RecordsAre(g, was, before, RecordsWith(records, now, contractId, EventAt(g, k)), contractId,
                       delivered + {k})
  {
    SameRecordsWith(g, was, now, records, contractId, delivered, EventAt(g, k));
    RecordNamesStep(crypto, g, was, before, records, contractId, delivered, k);
    var next := RecordsWith(records, now, contractId, EventAt(g, k));
    forall id | id in was && PaidInSet(g, delivered + {k}, id) && g.history.closed[id] < |g.history.log|
      ensures RecordIs(g, was, before, next, contractId, id)
    {
      RecordIdStep(crypto, g, was, now, before, records, contractId, delivered, k, id);
    }
  }

  lemma RecordIdStep(crypto: Crypto, g: Gate, was: Proofs, now: Proofs, before: Records, records: Records,
                     contractId: Str, delivered: set<nat>, k: nat, id: Bytes32)
    requires Inv(crypto, g) && k < |g.history.log| && k !in delivered && Keyed(crypto, was)
             && ProofsAre(g, was, now, delivered)
    requires RecordsAre(g, was, before, records, contractId, delivered)
    requires id in was && PaidInSet(g, delivered + {k}, id) && g.history.closed[id] < |g.history.log|
    ensures RecordIs(g, was, before, RecordsWith(records, now, contractId, EventAt(g, k)), contractId, id)
  {
    PaidGrows(crypto, g, delivered, k, id);
    EventSpeaksOf(crypto, g, k, id);
    assert ProofIs(g, was[id], now[id], delivered, id);
    if PaidInSet(g, delivered, id) {
      assert RecordIs(g, was, before, records, contractId, id);
    }
  }

  lemma EventStep(g: Gate, s: S.Store, after: S.Store, delivered: set<nat>, k: nat)
    requires k < |g.history.log| && EventsAre(g, s, delivered) && after.events == s.events[k := EventAt(g, k)]
    ensures EventsAre(g, after, delivered + {k})
  {
  }

  lemma DeliveryStep(crypto: Crypto, g: Gate, s0: S.Store, s: S.Store, contractId: Str, delivered: set<nat>, k: nat)
    requires Inv(crypto, g) && k < |g.history.log| && Keyed(crypto, s0.proofs)
             && Projected(g, s0, s, contractId, delivered)
    ensures Projected(g, s0, Deliver(s, contractId, EventAt(g, k)), contractId, delivered + {k})
  {
    if k in delivered {
      assert delivered + {k} == delivered;
    } else {
      DeliverParts(s, contractId, EventAt(g, k));
      ProofStep(crypto, g, s0.proofs, s.proofs, delivered, k);
      RecordStep(crypto, g, s0.proofs, s.proofs, s0.settlements, s.settlements, contractId, delivered, k);
      FingerprintStep(crypto, g, s0.proofs, s.proofs, s0.fingerprints.Keys, s.fingerprints, delivered, k);
      EventStep(g, s, Deliver(s, contractId, EventAt(g, k)), delivered, k);
    }
  }

  // -------------------------------------------------------------- confluence

  /** Real entries of the log, in any order and any number of times. */
  ghost predicate AllReal(g: Gate, es: seq<S.ChainEvent>) {
    forall i :: 0 <= i < |es| ==> Authentic(g, es[i])
  }

  ghost function Ids(es: seq<S.ChainEvent>): set<nat> {
    set i | 0 <= i < |es| :: es[i].id
  }

  lemma {:induction false} DeliveriesProject(crypto: Crypto, g: Gate, s0: S.Store, contractId: Str,
                                             es: seq<S.ChainEvent>)
    requires Inv(crypto, g) && Keyed(crypto, s0.proofs) && s0.events == map[] && AllReal(g, es)
    ensures Projected(g, s0, DeliverAll(s0, contractId, es), contractId, Ids(es))
  {
    if es == [] {
      assert Ids(es) == {} && PaidNames(g, s0.proofs, {}) == {} && PaidFingerprints(g, s0.proofs, {}) == {};
    } else {
      var n := |es| - 1;
      DeliveriesProject(crypto, g, s0, contractId, es[..n]);
      assert forall i :: 0 <= i < n ==> es[..n][i] == es[i];
      assert Ids(es) == Ids(es[..n]) + {es[n].id};
      assert es[n] == EventAt(g, es[n].id);
      DeliveryStep(crypto, g, s0, DeliverAll(s0, contractId, es[..n]), contractId, Ids(es[..n]), es[n].id);
    }
  }

  /** Stopping and resuming anywhere is the same as one delivery. */
  lemma {:induction false} DeliveryResumes(s: S.Store, contractId: Str, xs: seq<S.ChainEvent>, ys: seq<S.ChainEvent>)
    ensures DeliverAll(s, contractId, xs + ys) == DeliverAll(DeliverAll(s, contractId, xs), contractId, ys)
  {
    if ys == [] {
      assert xs + ys == xs;
    } else {
      var n := |ys| - 1;
      assert |xs + ys| - 1 == |xs| + n && (xs + ys)[|xs| + n] == ys[n];
      assert (xs + ys)[..|xs| + n] == xs + ys[..n];
      DeliveryResumes(s, contractId, xs, ys[..n]);
    }
  }

  /** What a proof's status must be for the store to agree with the chain, READY shown as REGISTERED. */
  function ChainStatus(g: Gate, id: Bytes32): S.ProofStatus {
    if id in g.payables then TerminalStatus(g.payables[id].status) else S.Signed
  }

  ghost predicate Covers(g: Gate, es: seq<S.ChainEvent>) {
    forall k :: 0 <= k < |g.history.log| ==> k in Ids(es)
  }

  /** Every order, duplication, paging or restart of a full delivery leaves the same statuses, equal to the
      gate's own, the same settlement records, and the same fingerprint keys. */
  lemma AnyFullDeliveryAgrees(crypto: Crypto, g: Gate, s0: S.Store, contractId: Str, xs: seq<S.ChainEvent>,
                              ys: seq<S.ChainEvent>)
    requires Inv(crypto, g) && Backed(crypto, g, s0) && s0.events == map[]
    requires AllReal(g, xs) && Covers(g, xs) && AllReal(g, ys) && Covers(g, ys)
    ensures var a, b := DeliverAll(s0, contractId, xs), DeliverAll(s0, contractId, ys);
            (forall id :: id in s0.proofs ==> id in a.proofs && a.proofs[id].status == ChainStatus(g, id))
            && (forall id :: id in s0.proofs ==> id in b.proofs && b.proofs[id].status == a.proofs[id].status)
            && a.settlements == b.settlements
            && a.fingerprints.Keys == b.fingerprints.Keys
            && a.events == b.events
  {
    KeyedWhenBacked(crypto, g, s0);
    DeliveriesProject(crypto, g, s0, contractId, xs);
    DeliveriesProject(crypto, g, s0, contractId, ys);
    SameIds(g, xs, ys);
    var a, b := DeliverAll(s0, contractId, xs), DeliverAll(s0, contractId, ys);
    forall id | id in s0.proofs
      ensures id in a.proofs && a.proofs[id].status == ChainStatus(g, id)
      ensures id in b.proofs && b.proofs[id].status == a.proofs[id].status
    {
      FullDeliveryStatus(crypto, g, s0, xs, id);
      assert ProofIs(g, s0.proofs[id], a.proofs[id], Ids(xs), id)
        && ProofIs(g, s0.proofs[id], b.proofs[id], Ids(xs), id);
    }
    SameRecords(g, s0, a, b, contractId, Ids(xs));
    SameEvents(g, a, b, Ids(xs));
  }

  lemma KeyedWhenBacked(crypto: Crypto, g: Gate, s: S.Store)
    requires Backed(crypto, g, s)
    ensures Keyed(crypto, s.proofs)
  {
    forall id | id in s.proofs ensures IdOf(crypto, s.proofs[id].payableId) == id {
      assert ProofBacked(crypto, g, id, s.proofs[id]);
    }
  }

  lemma SameIds(g: Gate, xs: seq<S.ChainEvent>, ys: seq<S.ChainEvent>)
    requires AllReal(g, xs) && Covers(g, xs) && AllReal(g, ys) && Covers(g, ys)
    ensures Ids(xs) == Ids(ys)
  {
    forall k ensures k in Ids(xs) <==> k in Ids(ys) {
      if k in Ids(xs) {
        var i :| 0 <= i < |xs| && xs[i].id == k;
        assert Authentic(g, xs[i]);
      }
      if k in Ids(ys) {
        var i :| 0 <= i < |ys| && ys[i].id == k;
        assert Authentic(g, ys[i]);
      }
    }
  }

  lemma FullDeliveryStatus(crypto: Crypto, g: Gate, s0: S.Store, es: seq<S.ChainEvent>, id: Bytes32)
    requires Inv(crypto, g) && Backed(crypto, g, s0) && Covers(g, es) && id in s0.proofs
    ensures StatusAfter(g, s0.proofs[id].status, Ids(es), id) == ChainStatus(g, id)
  {
    var h := g.history;
    assert Holds(Log, crypto, g);
    assert ProofBacked(crypto, g, id, s0.proofs[id]);
    if id in g.payables {
      assert OpenedAt(h.log, h.readied[id], id, g.payables[id]);
      if id in h.closed {
        assert ClosedAt(h.log, h.closed[id], id, g.payables[id]);
      }
    }
  }

  lemma SameRecords(g: Gate, s0: S.Store, a: S.Store, b: S.Store, contractId: Str, delivered: set<nat>)
    requires RecordsAre(g, s0.proofs, s0.settlements, a.settlements, contractId, delivered)
    requires RecordsAre(g, s0.proofs, s0.settlements, b.settlements, contractId, delivered)
    requires forall k :: k in delivered ==> k < |g.history.log|
    ensures a.settlements == b.settlements
  {
    forall p | p in a.settlements ensures a.settlements[p] == b.settlements[p] {
      if p !in s0.settlements {
        var id :| id in s0.proofs && PaidInSet(g, delivered, id) && s0.proofs[id].payableId == p;
        assert RecordIs(g, s0.proofs, s0.settlements, a.settlements, contractId, id);
        assert RecordIs(g, s0.proofs, s0.settlements, b.settlements, contractId, id);
      }
    }
  }

  lemma SameEvents(g: Gate, a: S.Store, b: S.Store, delivered: set<nat>)
    requires EventsAre(g, a, delivered) && EventsAre(g, b, delivered)
    ensures a.events == b.events
  {
    forall i | i in a.events ensures a.events[i] == b.events[i] {
      assert Authentic(g, a.events[i]) && Authentic(g, b.events[i]);
    }
  }

  // ---------------------------------------- which payments a delivery records

  /** Entry k of the log is the payment of the proof kept under `id`. */
  ghost predicate Pays(g: Gate, s: S.Store, k: nat, id: Bytes32) {
    k < |g.history.log| && g.history.log[k].event.SettlementExecuted? && g.history.log[k].event.id == id
      && id in s.proofs
  }

  lemma DeliverStaysBacked(crypto: Crypto, g: Gate, s: S.Store, contractId: Str, e: S.ChainEvent)
    requires Inv(crypto, g) && Backed(crypto, g, s) && Authentic(g, e)
    ensures Backed(crypto, g, Deliver(s, contractId, e))
  {
    if e.id !in s.events {
      DeliverParts(s, contractId, e);
      ClosingEventTells(crypto, g, e.id);
      ProofsStayBacked(crypto, g, s.proofs, e);
      RecordsStayBacked(crypto, g, s, contractId, e);
    }
  }

  lemma ProofsStayBacked(crypto: Crypto, g: Gate, proofs: Proofs, e: S.ChainEvent)
    requires Inv(crypto, g) && ProofsBacked(crypto, g, proofs) && Authentic(g, e)
    ensures ProofsBacked(crypto, g, ProofsWith(proofs, e.logged))
  {
    forall id | id in ProofsWith(proofs, e.logged) ensures ProofBacked(crypto, g, id,
        ProofsWith(proofs, e.logged)[id]) {
      assert ProofBacked(crypto, g, id, proofs[id]);
      ProofStaysBacked(crypto, g, proofs, e, id);
    }
  }

  lemma ProofStaysBacked(crypto: Crypto, g: Gate, proofs: Proofs, e: S.ChainEvent, id: Bytes32)
    requires Inv(crypto, g) && id in proofs && ProofBacked(crypto, g, id, proofs[id]) && Authentic(g, e)
    ensures var after := ProofsWith(proofs, e.logged);
            id in after && ProofBacked(crypto, g, id, after[id]) && after[id].payableId == proofs[id].payableId
  {
    ClosingEventTells(crypto, g, e.id);
  }

  lemma RecordsStayBacked(crypto: Crypto, g: Gate, s: S.Store, contractId: Str, e: S.ChainEvent)
    requires ProofsBacked(crypto, g, s.proofs) && RecordsBacked(crypto, g, s.settlements) && Authentic(g, e)
    ensures RecordsBacked(crypto, g, RecordsWith(s.settlements, s.proofs, contractId, e))
  {
    var event := e.logged.event;
    if event.SettlementExecuted? && event.id in s.proofs {
      var p := s.proofs[event.id];
      assert ProofBacked(crypto, g, event.id, p);
      assert SettledAt(g.history.log, e.id, event.id, e.logged.tx, e.logged.ledger);
      assert RecordBacked(crypto, g, p.payableId, RecordFromEvent(p, contractId, e));
    }
  }

  /** What delivering these events did to the record of payment k: it is there if it was, or if k is among them
      and had not been stored. */
  ghost predicate RecordedBy(s: S.Store, after: S.Store, delivered: set<nat>, k: nat, id: Bytes32) {
    id in s.proofs && id in after.proofs && SameProof(s.proofs[id], after.proofs[id])
    && after.events.Keys == s.events.Keys + delivered && s.fingerprints.Keys <= after.fingerprints.Keys
    && var p, isNew := s.proofs[id].payableId, k !in s.events && k in delivered;
       (p in after.settlements <==> p in s.settlements || isNew)
       && (isNew ==> VendorFingerprint(s.proofs[id]) in after.fingerprints)
  }

  lemma RecordedInTurn(s: S.Store, mid: S.Store, after: S.Store, xs: set<nat>, ys: set<nat>, k: nat, id: Bytes32)
    requires RecordedBy(s, mid, xs, k, id) && RecordedBy(mid, after, ys, k, id)
    ensures RecordedBy(s, after, xs + ys, k, id)
  {
  }

  /** One event records a proof's payment exactly when it is that payment's own, not seen before. */
  lemma DeliveryRecords(crypto: Crypto, g: Gate, s: S.Store, contractId: Str, e: S.ChainEvent, k: nat, id: Bytes32)
    requires Inv(crypto, g) && Backed(crypto, g, s) && Authentic(g, e) && Pays(g, s, k, id)
    ensures RecordedBy(s, Deliver(s, contractId, e), {e.id}, k, id)
  {
    if e.id !in s.events {
      DeliverParts(s, contractId, e);
      NewEventRecords(crypto, g, s, contractId, e, k, id);
    }
  }

  lemma NewEventRecords(crypto: Crypto, g: Gate, s: S.Store, contractId: Str, e: S.ChainEvent, k: nat, id: Bytes32)
    requires Inv(crypto, g) && Backed(crypto, g, s) && Authentic(g, e) && Pays(g, s, k, id) && e.id !in s.events
    ensures RecordedBy(s, S.Store(ProofsWith(s.proofs, e.logged), RecordsWith(s.settlements, s.proofs, contractId, e),
                                  s.events[e.id := e], s.cursors, FingerprintsWith(s.fingerprints, s.proofs, e.logged)),
                       {e.id}, k, id)
  {
    ProofsStayTheSame(s.proofs, e.logged, id);
    OwnEventRecords(crypto, g, s, contractId, e, k, id);
  }

  lemma ProofsStayTheSame(proofs: Proofs, e: LoggedEvent, id: Bytes32)
    requires id in proofs
    ensures id in ProofsWith(proofs, e) && SameProof(proofs[id], ProofsWith(proofs, e)[id])
  {
  }

  lemma OwnEventRecords(crypto: Crypto, g: Gate, s: S.Store, contractId: Str, e: S.ChainEvent, k: nat, id: Bytes32)
    requires Inv(crypto, g) && ProofsBacked(crypto, g, s.proofs) && Authentic(g, e) && Pays(g, s, k, id)
    ensures var p := s.proofs[id].payableId;
            p in RecordsWith(s.settlements, s.proofs, contractId, e) <==> p in s.settlements || e.id == k
  {
    var event := e.logged.event;
    assert ProofBacked(crypto, g, id, s.proofs[id]);
    if event.SettlementExecuted? && event.id in s.proofs {
      assert ProofBacked(crypto, g, event.id, s.proofs[event.id]);
      if event.id == id {
        OneSettlementEvent(crypto, g, id, e.id, k);
      }
    }
  }

  /** Exactly which payments a delivery records, from any store: one already recorded, or one whose event was not
      stored before and is delivered now. An event stored without its record is never projected again. */
  lemma {:induction false} DeliveryRecordsExactly(
    crypto: Crypto, g: Gate, s: S.Store, contractId: Str, es: seq<S.ChainEvent>, k: nat, id: Bytes32)
    requires Inv(crypto, g) && Backed(crypto, g, s) && AllReal(g, es) && Pays(g, s, k, id)
    ensures RecordedBy(s, DeliverAll(s, contractId, es), Ids(es), k, id)
    ensures Backed(crypto, g, DeliverAll(s, contractId, es))
  {
    if es == [] {
      assert Ids(es) == {};
    } else {
      var n := |es| - 1;
      assert forall i :: 0 <= i < n ==> es[..n][i] == es[i];
      assert Ids(es) == Ids(es[..n]) + {es[n].id};
      DeliveryRecordsExactly(crypto, g, s, contractId, es[..n], k, id);
      OneMoreDelivered(crypto, g, s, DeliverAll(s, contractId, es[..n]), contractId, es[n], Ids(es[..n]), k, id);
    }
  }

  lemma OneMoreDelivered(crypto: Crypto, g: Gate, s: S.Store, before: S.Store, contractId: Str, e: S.ChainEvent,
                         delivered: set<nat>, k: nat, id: Bytes32)
    requires Inv(crypto, g) && Backed(crypto, g, before) && Authentic(g, e) && Pays(g, s, k, id)
    requires RecordedBy(s, before, delivered, k, id)
    ensures RecordedBy(s, Deliver(before, contractId, e), delivered + {e.id}, k, id)
    ensures Backed(crypto, g, Deliver(before, contractId, e))
  {
    DeliverStaysBacked(crypto, g, before, contractId, e);
    DeliveryRecords(crypto, g, before, contractId, e, k, id);
    RecordedInTurn(s, before, Deliver(before, contractId, e), delivered, {e.id}, k, id);
  }

  /** A full delivery, from any store, records a payment unless its event was stored without its record; what it
      records names the transaction and ledger that paid. */
  lemma FullDeliveryRecordsEveryPayment(crypto: Crypto, g: Gate, s0: S.Store, contractId: Str,
                                        es: seq<S.ChainEvent>, id: Bytes32)
    requires Inv(crypto, g) && Backed(crypto, g, s0) && AllReal(g, es) && Covers(g, es)
    requires id in s0.proofs && Has(g, id, Settled)
    ensures id in g.history.closed && Pays(g, s0, g.history.closed[id], id)
    ensures var p, k, after := s0.proofs[id].payableId, g.history.closed[id], DeliverAll(s0, contractId, es);
            (p in after.settlements <==> p in s0.settlements || k !in s0.events)
            && (p in after.settlements ==> PaidIn(g, id, after.settlements[p].tx, after.settlements[p].ledger))
            && (k !in s0.events ==> VendorFingerprint(s0.proofs[id]) in after.fingerprints)
  {
    var h, p, after := g.history, s0.proofs[id].payableId, DeliverAll(s0, contractId, es);
    assert Holds(Log, crypto, g);
    assert ClosedAt(h.log, h.closed[id], id, g.payables[id]);
    DeliveryRecordsExactly(crypto, g, s0, contractId, es, h.closed[id], id);
    assert ProofBacked(crypto, g, id, s0.proofs[id]);
    if p in after.settlements {
      assert RecordBacked(crypto, g, p, after.settlements[p]);
    }
  }

  /** A crash between recording an event and projecting it: no later delivery, however long, projects it,
      so the settlement stays unrecorded until an adapter run rebuilds it. */
  lemma CrashBetweenRecordAndProjectionLoses(
    crypto: Crypto, g: Gate, s: S.Store, contractId: Str, k: nat, es: seq<S.ChainEvent>, id: Bytes32)
    requires Inv(crypto, g) && Backed(crypto, g, s) && AllReal(g, es) && Pays(g, s, k, id)
    requires k !in s.events && s.proofs[id].payableId !in s.settlements
    ensures var p, crashed := s.proofs[id].payableId, S.RecordChainEvent(s, EventAt(g, k));
            p in Deliver(s, contractId, EventAt(g, k)).settlements
              && p !in DeliverAll(crashed, contractId, es).settlements
  {
    var crashed := S.RecordChainEvent(s, EventAt(g, k));
    EventStaysBacked(crypto, g, s, EventAt(g, k));
    DeliveryRecords(crypto, g, s, contractId, EventAt(g, k), k, id);
    DeliveryRecordsExactly(crypto, g, crashed, contractId, es, k, id);
  }

  // --------------------------------------- the fold is the step machine, undisturbed

  predicate CanStep(s: Shared, pc: IndexerPc, c: Choice) {
    PageIsReal(s.gate, c.page)
    && (pc.Fetch? || pc.Stopped? || pc.StoreEvent? || (pc.queue != [] && S.Subject(pc.queue[0].logged.event).Some?))
  }

  /** n awaits of one indexer with nobody else acting in between. */
  function Awaits(s: Shared, name: Str, contractId: Str, pc: IndexerPc, c: Choice, n: nat): (Shared, IndexerPc)
    decreases n
  {
    if n == 0 || !CanStep(s, pc, c) then (s, pc)
    else
      var (s', pc') := IndexerStep(s, name, contractId, pc, c);
      Awaits(s', name, contractId, pc', c, n - 1)
  }

  /** How many awaits an event takes. */
  function AwaitsFor(s: S.Store, e: S.ChainEvent): nat {
    var event := e.logged.event;
    if e.id in s.events || S.Subject(event).None? || (StatusByEvent(event).None? && !event.SettlementExecuted?) then 1
    else if S.Subject(event).value !in s.proofs then 2
    else if StatusByEvent(event).Some? then
      (if StatusByEvent(event).value.Registered? && !s.proofs[S.Subject(event).value].status.Signed? then 2 else 3)
    else if s.proofs[S.Subject(event).value].payableId in s.settlements then 5
    else 6
  }

  /** Left alone, the step machine's awaits for one event do exactly what `Deliver` says. */
  lemma {:induction false} AwaitsDeliver(s: Shared, name: Str, contractId: Str, pc: IndexerPc, c: Choice)
    requires pc.StoreEvent? && pc.queue != [] && PageIsReal(s.gate, c.page)
    ensures Awaits(s, name, contractId, pc, c, AwaitsFor(s.store, pc.queue[0])) ==
              (s.(store := Deliver(s.store, contractId, pc.queue[0])), Rest(pc))
  {
    var e := pc.queue[0];
    var n := AwaitsFor(s.store, e);
    var (s1, pc1) := IndexerStep(s, name, contractId, pc, c);
    assert Awaits(s, name, contractId, pc, c, n) == Awaits(s1, name, contractId, pc1, c, n - 1);
    if n > 1 {
      var (s2, pc2) := IndexerStep(s1, name, contractId, pc1, c);
      assert Awaits(s1, name, contractId, pc1, c, n - 1) == Awaits(s2, name, contractId, pc2, c, n - 2);
      if n == 3 {
        assert Awaits(s2, name, contractId, pc2, c, 1) == IndexerStep(s2, name, contractId, pc2, c);
      } else if n > 3 {
        PaymentAwaits(s2, name, contractId, pc2, c, n - 2);
      }
    }
  }

  lemma {:induction false} PaymentAwaits(s: Shared, name: Str, contractId: Str, pc: IndexerPc, c: Choice, n: nat)
    requires pc.FindRecord? && pc.queue != [] && PageIsReal(s.gate, c.page)
             && pc.queue[0].logged.event.SettlementExecuted?
    requires n == if pc.proof.payableId in s.store.settlements then 3 else 4
    ensures var e, id := pc.queue[0], pc.queue[0].logged.event.id;
            Awaits(s, name, contractId, pc, c, n) ==
              (s.(store := S.AddFingerprint(
                    S.SetProofStatus(S.RecordSettlement(s.store, RecordFromEvent(pc.proof, contractId, e)), id,
                                     S.Settled, None),
                    VendorFingerprint(pc.proof), Note(pc.proof.payableId, e.logged.tx))),
               Rest(pc))
  {
    var (s1, pc1) := IndexerStep(s, name, contractId, pc, c);
    assert Awaits(s, name, contractId, pc, c, n) == Awaits(s1, name, contractId, pc1, c, n - 1);
    var (s2, pc2) := IndexerStep(s1, name, contractId, pc1, c);
    assert Awaits(s1, name, contractId, pc1, c, n - 1) == Awaits(s2, name, contractId, pc2, c, n - 2);
    var (s3, pc3) := IndexerStep(s2, name, contractId, pc2, c);
    assert Awaits(s2, name, contractId, pc2, c, n - 2) == Awaits(s3, name, contractId, pc3, c, n - 3);
    if n == 4 {
      assert Awaits(s3, name, contractId, pc3, c, 1) == IndexerStep(s3, name, contractId, pc3, c);
    }
  }

  // ------------------------------------------------------------------ polling

  datatype EventPage = EventPage(events: seq<S.ChainEvent>, cursor: Option<nat>, latestLedger: nat)

  /** The n-th request, from a cursor. */
  type EventSource = (nat, Option<nat>) -> EventPage

  /** A page without a cursor leaves it where it was. */
  function Moved(cursor: Option<nat>, page: EventPage): Option<nat> {
    if page.cursor.Some? then page.cursor else cursor
  }

  /** Nothing came, and the cursor did not move. */
  predicate Idle(page: EventPage, cursor: Option<nat>) {
    page.events == [] && Moved(cursor, page) == cursor
  }

  function CursorAfter(pages: seq<EventPage>, cursor: Option<nat>): Option<nat> {
    if pages == [] then cursor else CursorAfter(pages[1..], Moved(cursor, pages[0]))
  }

  /** The pages a poll reads: it stops when nothing came and the cursor did not move, or at the page limit. */
  function Pages(source: EventSource, page: nat, maxPages: nat, cursor: Option<nat>): (pages: seq<EventPage>)
    requires page <= maxPages
    ensures |pages| <= maxPages - page
    decreases maxPages - page
  {
    if page == maxPages then []
    else
      var result := source(page, cursor);
      if Idle(result, cursor) then [result] else [result] + Pages(source, page + 1, maxPages, Moved(cursor, result))
  }

  function Remaining(source: EventSource, page: nat, maxPages: nat, cursor: Option<nat>, idle: bool): seq<EventPage>
    requires page <= maxPages
  {
    if idle then [] else Pages(source, page, maxPages, cursor)
  }

  /** Reading one page moves it from what remains to what has been read. */
  lemma PageRead(source: EventSource, page: nat, maxPages: nat, cursor: Option<nat>, read: seq<EventPage>,
                 next: Option<nat>, idle: bool)
    requires page < maxPages
    requires next == Moved(cursor, source(page, cursor)) && idle == Idle(source(page, cursor), cursor)
    ensures read + Remaining(source, page, maxPages, cursor, false)
            == (read + [source(page, cursor)]) + Remaining(source, page + 1, maxPages, next, idle)
  {
  }

  function EventsOf(pages: seq<EventPage>): seq<S.ChainEvent> {
    if pages == [] then [] else EventsOf(pages[..|pages| - 1]) + pages[|pages| - 1].events
  }

  /** Each page is asked for from where the one before it left the cursor. */
  ghost predicate Chained(source: EventSource, page: nat, cursor: Option<nat>, pages: seq<EventPage>) {
    forall i :: 0 <= i < |pages| ==> pages[i] == source(page + i, CursorAfter(pages[..i], cursor))
  }

  ghost predicate IdleAt(pages: seq<EventPage>, cursor: Option<nat>, i: nat)
    requires i < |pages|
  {
    pages[i].events == []
    && (pages[i].cursor.None? || pages[i].cursor == CursorAfter(pages[..i], cursor))
  }

  ghost predicate NoneIdle(pages: seq<EventPage>, cursor: Option<nat>, n: nat)
    requires n <= |pages|
  {
    forall i :: 0 <= i < n ==> !IdleAt(pages, cursor, i)
  }

  /** The cursor before a page is the same whether counted from the first page or from the second. */
  lemma CursorFromNext(first: EventPage, rest: seq<EventPage>, cursor: Option<nat>, i: nat)
    requires i <= |rest|
    ensures CursorAfter(([first] + rest)[..i + 1], cursor) == CursorAfter(rest[..i], Moved(cursor, first))
  {
    var prefix := ([first] + rest)[..i + 1];
    assert prefix[0] == first && prefix[1..] == rest[..i];
  }

  lemma ChainedWithFirst(source: EventSource, page: nat, cursor: Option<nat>, first: EventPage, rest: seq<EventPage>)
    requires first == source(page, cursor) && Chained(source, page + 1, Moved(cursor, first), rest)
    ensures Chained(source, page, cursor, [first] + rest)
  {
    var pages := [first] + rest;
    forall i | 0 <= i < |pages| ensures pages[i] == source(page + i, CursorAfter(pages[..i], cursor)) {
      if i > 0 {
        CursorFromNext(first, rest, cursor, i - 1);
        assert rest[i - 1] == source(page + 1 + (i - 1), CursorAfter(rest[..i - 1], Moved(cursor, first)));
      }
    }
  }

  lemma IdleFromNext(first: EventPage, rest: seq<EventPage>, cursor: Option<nat>, i: nat)
    requires i < |rest|
    ensures IdleAt([first] + rest, cursor, i + 1) == IdleAt(rest, Moved(cursor, first), i)
  {
    CursorFromNext(first, rest, cursor, i);
  }

  lemma NoneIdleWithFirst(first: EventPage, rest: seq<EventPage>, cursor: Option<nat>, n: nat)
    requires n <= |rest| && !Idle(first, cursor) && NoneIdle(rest, Moved(cursor, first), n)
    ensures NoneIdle([first] + rest, cursor, n + 1)
  {
    forall i | 0 <= i < n + 1 ensures !IdleAt([first] + rest, cursor, i) {
      if i > 0 {
        IdleFromNext(first, rest, cursor, i - 1);
      } else {
        assert ([first] + rest)[..0] == [];
      }
    }
  }

  /** A poll that stops short of its budget stops at its one idle page: nothing came and the cursor stayed. An
      empty page whose cursor moved is read past. */
  lemma {:induction false} PagesStopOnlyWhenCaughtUp(source: EventSource, page: nat, maxPages: nat, cursor: Option<nat>)
    requires page < maxPages
    ensures var pages := Pages(source, page, maxPages, cursor);
            Chained(source, page, cursor, pages)
            && 1 <= |pages| <= maxPages - page && NoneIdle(pages, cursor, |pages| - 1)
            && (|pages| < maxPages - page ==> IdleAt(pages, cursor, |pages| - 1))
    decreases maxPages - page
  {
    var first := source(page, cursor);
    if Idle(first, cursor) || page + 1 == maxPages {
      assert Pages(source, page, maxPages, cursor) == [first] && [first][..0] == [];
    } else {
      var rest := Pages(source, page + 1, maxPages, Moved(cursor, first));
      PagesStopOnlyWhenCaughtUp(source, page + 1, maxPages, Moved(cursor, first));
      assert Pages(source, page, maxPages, cursor) == [first] + rest;
      ChainedWithFirst(source, page, cursor, first, rest);
      NoneIdleWithFirst(first, rest, cursor, |rest| - 1);
      IdleFromNext(first, rest, cursor, |rest| - 1);
    }
  }

  lemma {:induction false} CursorAfterOneMore(pages: seq<EventPage>, page: EventPage, cursor: Option<nat>)
    ensures CursorAfter(pages + [page], cursor) == Moved(CursorAfter(pages, cursor), page)
  {
    if pages != [] {
      CursorAfterOneMore(pages[1..], page, Moved(cursor, pages[0]));
      assert (pages + [page])[1..] == pages[1..] + [page];
    }
  }

  /** Cursors are bookkeeping: the projected parts of the store do not depend on them. */
  function WithoutCursors(s: S.Store): S.Store {
    s.(cursors := map[])
  }

  lemma DeliverIgnoresCursors(s: S.Store, t: S.Store, contractId: Str, e: S.ChainEvent)
    requires WithoutCursors(s) == WithoutCursors(t)
    ensures WithoutCursors(Deliver(s, contractId, e)) == WithoutCursors(Deliver(t, contractId, e))
  {
    if e.id !in s.events {
      DeliverParts(s, contractId, e);
      DeliverParts(t, contractId, e);
    }
  }

  lemma {:induction false} DeliverAllIgnoresCursors(s: S.Store, t: S.Store, contractId: Str, es: seq<S.ChainEvent>)
    requires WithoutCursors(s) == WithoutCursors(t)
    ensures WithoutCursors(DeliverAll(s, contractId, es)) == WithoutCursors(DeliverAll(t, contractId, es))
  {
    if es != [] {
      var n := |es| - 1;
      DeliverAllIgnoresCursors(s, t, contractId, es[..n]);
      DeliverIgnoresCursors(DeliverAll(s, contractId, es[..n]), DeliverAll(t, contractId, es[..n]), contractId, es[n]);
    }
  }

  lemma {:induction false} DeliveryKeepsCursors(s: S.Store, contractId: Str, es: seq<S.ChainEvent>)
    ensures DeliverAll(s, contractId, es).cursors == s.cursors
  {
    if es != [] {
      var n := |es| - 1;
      DeliveryKeepsCursors(s, contractId, es[..n]);
      if es[n].id !in DeliverAll(s, contractId, es[..n]).events {
        DeliverParts(DeliverAll(s, contractId, es[..n]), contractId, es[n]);
      }
    }
  }

  lemma DeliverCounts(s: S.Store, contractId: Str, e: S.ChainEvent)
    ensures |Deliver(s, contractId, e).events| == |s.events| + if e.id in s.events then 0 else 1
  {
    if e.id !in s.events {
      DeliverParts(s, contractId, e);
      assert s.events[e.id := e].Keys == s.events.Keys + {e.id};
      assert |s.events[e.id := e].Keys| == |s.events.Keys| + 1;
    }
  }

  /** The report's count of new events is how many the store gained. */
  lemma {:induction false} ReportCounts(s: S.Store, contractId: Str, es: seq<S.ChainEvent>, r: Report)
    ensures ReportedAll(s, contractId, es, r).fetched == r.fetched
    ensures ReportedAll(s, contractId, es, r).recorded
            == r.recorded + |DeliverAll(s, contractId, es).events| - |s.events|
  {
    if es != [] {
      var n := |es| - 1;
      ReportCounts(s, contractId, es[..n], r);
      DeliverCounts(DeliverAll(s, contractId, es[..n]), contractId, es[n]);
    }
  }

  lemma ReportIgnoresCursors(s: S.Store, t: S.Store, e: S.ChainEvent, r: Report)
    requires WithoutCursors(s) == WithoutCursors(t)
    ensures Reported(s, e, r) == Reported(t, e, r)
  {
    var a, b := S.RecordChainEvent(s, e), S.RecordChainEvent(t, e);
    assert s.events == WithoutCursors(s).events == WithoutCursors(t).events == t.events;
    assert s.proofs == WithoutCursors(s).proofs == WithoutCursors(t).proofs == t.proofs;
    assert s.settlements == WithoutCursors(s).settlements == WithoutCursors(t).settlements == t.settlements;
    assert a.proofs == b.proofs && a.settlements == b.settlements;
  }

  lemma {:induction false} ReportAllIgnoresCursors(s: S.Store, t: S.Store, contractId: Str, es: seq<S.ChainEvent>,
                                                   r: Report)
    requires WithoutCursors(s) == WithoutCursors(t)
    ensures ReportedAll(s, contractId, es, r) == ReportedAll(t, contractId, es, r)
  {
    if es != [] {
      var n := |es| - 1;
      ReportAllIgnoresCursors(s, t, contractId, es[..n], r);
      DeliverAllIgnoresCursors(s, t, contractId, es[..n]);
      ReportIgnoresCursors(DeliverAll(s, contractId, es[..n]), DeliverAll(t, contractId, es[..n]), es[n],
                           ReportedAll(s, contractId, es[..n], r));
    }
  }

  /** A report taken in two parts is the report of the whole. */
  lemma {:induction false} ReportResumes(s: S.Store, contractId: Str, xs: seq<S.ChainEvent>, ys: seq<S.ChainEvent>,
                                         r: Report)
    ensures ReportedAll(s, contractId, xs + ys, r)
            == ReportedAll(DeliverAll(s, contractId, xs), contractId, ys, ReportedAll(s, contractId, xs, r))
  {
    if ys == [] {
      assert xs + ys == xs;
    } else {
      var n := |ys| - 1;
      assert |xs + ys| - 1 == |xs| + n && (xs + ys)[|xs| + n] == ys[n];
      assert (xs + ys)[..|xs| + n] == xs + ys[..n];
      ReportResumes(s, contractId, xs, ys[..n], r);
      DeliveryResumes(s, contractId, xs, ys[..n]);
    }
  }

  lemma {:induction false} FetchedAside(s: S.Store, contractId: Str, es: seq<S.ChainEvent>, r: Report, fetched: nat)
    ensures ReportedAll(s, contractId, es, r.(fetched := fetched))
            == ReportedAll(s, contractId, es, r).(fetched := fetched)
  {
    if es != [] {
      FetchedAside(s, contractId, es[..|es| - 1], r, fetched);
    }
  }

  /** After these pages: the projected parts of the store are what delivering their events in order makes
      them, and the report is that delivery's, with every event counted as fetched. */
  ghost predicate PolledSoFar(s: S.Store, now: S.Store, contractId: Str, pages: seq<EventPage>, report: Report) {
    WithoutCursors(now) == WithoutCursors(DeliverAll(s, contractId, EventsOf(pages)))
    && report == ReportedAll(s, contractId, EventsOf(pages), NO_REPORT).(fetched := |EventsOf(pages)|)
    && report.recorded == |now.events| - |s.events|
  }

  ghost predicate TookPage(before: S.Store, after: S.Store, contractId: Str, page: EventPage, was: Report,
                           now: Report) {
    WithoutCursors(after) == WithoutCursors(DeliverAll(before, contractId, page.events))
    && now == ReportedAll(before, contractId, page.events, was.(fetched := was.fetched + |page.events|))
  }

  lemma PageDelivered(s: S.Store, before: S.Store, after: S.Store, contractId: Str, pages: seq<EventPage>,
                      page: EventPage, was: Report, now: Report)
    requires PolledSoFar(s, before, contractId, pages, was) && TookPage(before, after, contractId, page, was, now)
    ensures PolledSoFar(s, after, contractId, pages + [page], now)
  {
    assert (pages + [page])[..|pages|] == pages;
    assert after.events == DeliverAll(before, contractId, page.events).events;
    DeliverAllIgnoresCursors(before, DeliverAll(s, contractId, EventsOf(pages)), contractId, page.events);
    DeliveryResumes(s, contractId, EventsOf(pages), page.events);
    ReportCounts(before, contractId, page.events, was.(fetched := was.fetched + |page.events|));
    PageReported(s, before, contractId, pages, page, was);
  }

  /** Only the indexer's own cursor moved, to where the last page left it; no page, no move. */
  ghost predicate CursorMoved(was: map<Str, S.Cursor>, now: map<Str, S.Cursor>, name: Str, pages: seq<EventPage>,
                              cursor: Option<nat>) {
    now == if pages == [] then was
           else was[name := S.Cursor(CursorAfter(pages, cursor), pages[|pages| - 1].latestLedger)]
  }

  /** Where a poll stands once these pages have been read. */
  ghost predicate ReadSoFar(s: S.Store, now: S.Store, contractId: Str, name: Str, pages: seq<EventPage>, report: Report,
                            cursor: Option<nat>, start: Option<nat>) {
    PolledSoFar(s, now, contractId, pages, report)
    && cursor == CursorAfter(pages, start) && CursorMoved(s.cursors, now.cursors, name, pages, start)
  }

  lemma NothingRemains(source: EventSource, page: nat, maxPages: nat, cursor: Option<nat>, idle: bool)
    requires page <= maxPages && (page == maxPages || idle)
    ensures Remaining(source, page, maxPages, cursor, idle) == []
  {
  }

  /** What a whole poll did: the pages it read, each from the cursor the one before left, are all that was to read. */
  ghost predicate Polled(s: S.Store, now: S.Store, contractId: Str, name: Str, source: EventSource, maxPages: nat,
                         report: Report) {
    var start := if name in s.cursors then s.cursors[name].cursor else None;
    var pages := Pages(source, 0, maxPages, start);
    |pages| <= maxPages && PolledSoFar(s, now, contractId, pages, report)
    && CursorMoved(s.cursors, now.cursors, name, pages, start)
  }

  lemma ReadToTheEnd(s: S.Store, now: S.Store, contractId: Str, name: Str, source: EventSource, maxPages: nat,
                     report: Report, pages: seq<EventPage>, cursor: Option<nat>, start: Option<nat>)
    requires start == if name in s.cursors then s.cursors[name].cursor else None
    requires pages == Remaining(source, 0, maxPages, start, false)
             && ReadSoFar(s, now, contractId, name, pages, report, cursor, start)
    ensures Polled(s, now, contractId, name, source, maxPages, report)
  {
  }

  lemma CursorMovesOn(was: map<Str, S.Cursor>, now: map<Str, S.Cursor>, name: Str, pages: seq<EventPage>,
                      start: Option<nat>, page: EventPage)
    requires CursorMoved(was, now, name, pages, start)
    ensures CursorMoved(was, now[name := S.Cursor(Moved(CursorAfter(pages, start), page), page.latestLedger)], name,
                        pages + [page], start)
  {
    CursorAfterOneMore(pages, page, start);
  }

  lemma PageReported(s: S.Store, before: S.Store, contractId: Str, pages: seq<EventPage>, page: EventPage, was: Report)
    requires PolledSoFar(s, before, contractId, pages, was)
    ensures var all := EventsOf(pages) + page.events;
            ReportedAll(before, contractId, page.events, was.(fetched := was.fetched + |page.events|))
            == ReportedAll(s, contractId, all, NO_REPORT).(fetched := |all|)
  {
    var xs, ys := EventsOf(pages), page.events;
    ReportResumes(s, contractId, xs, ys, NO_REPORT);
    ReportedOn(before, DeliverAll(s, contractId, xs), contractId, ys, ReportedAll(s, contractId, xs, NO_REPORT), |xs|,
               |xs + ys|);
  }

  lemma ReportedOn(s: S.Store, t: S.Store, contractId: Str, es: seq<S.ChainEvent>, r: Report, before: nat, after: nat)
    requires WithoutCursors(s) == WithoutCursors(t)
    ensures ReportedAll(s, contractId, es, r.(fetched := before).(fetched := after))
            == ReportedAll(t, contractId, es, r).(fetched := after)
  {
    assert r.(fetched := before).(fetched := after) == r.(fetched := after);
    ReportAllIgnoresCursors(s, t, contractId, es, r.(fetched := after));
    FetchedAside(t, contractId, es, r, after);
  }

  lemma NothingRead(s: S.Store, contractId: Str, name: Str, start: Option<nat>)
    ensures ReadSoFar(s, s, contractId, name, [], NO_REPORT, start, start)
  {
  }

  class EventIndexer {
    const source: EventSource
    const store: S.MemorySettlementStore
    const contractId: Str
    const name: Str

    constructor (source: EventSource, store: S.MemorySettlementStore, contractId: Str, name: Str)
      ensures this.source == source && this.store == store && this.contractId == contractId && this.name == name
    {
      this.source, this.store, this.contractId, this.name := source, store, contractId, name;
    }

    method ProjectEvent(e: S.ChainEvent, report: Report) returns (after: Report)
      modifies store
      ensures store.State() == old(Project(store.State(), contractId, e))
      ensures after == old(ProjectReport(store.State(), e, report))
    {
      after := report;
      var event := e.logged.event;
      var subject := S.Subject(event);
      if subject.None? {
        return;
      }
      var status := StatusByEvent(event);
      var proof := store.ProofByIdHash(subject.value);
      if status.Some? {
        if proof.Some? && (status.value != S.Registered || proof.value.status == S.Signed) {
          store.SetStatus(subject.value, status.value, if status.value.Registered? then Some(e.logged.tx) else None);
        }
        return;
      }
      if !event.SettlementExecuted? {
        return;
      }
      if proof.None? {
        after := after.(unknownSettlements := after.unknownSettlements + [subject.value]);
        return;
      }
      var p := proof.value;
      var recorded := store.SettlementOf(p.payableId);
      if recorded.None? {
        store.Record(RecordFromEvent(p, contractId, e));
        after := after.(settlementsRecorded := after.settlementsRecorded + [p.payableId]);
      }
      store.SetStatus(subject.value, S.Settled, None);
      store.AddSettledFingerprint(VendorFingerprint(p), Note(p.payableId, e.logged.tx));
    }

    /** Every event of one page, in the order the source gave them. */
    method TakePage(events: seq<S.ChainEvent>, report: Report) returns (after: Report)
      modifies store
      ensures store.State() == old(DeliverAll(store.State(), contractId, events))
      ensures after == old(ReportedAll(store.State(), contractId, events, report))
    {
      after := report;
      ghost var s := store.State();
      for i := 0 to |events|
        invariant store.State() == DeliverAll(s, contractId, events[..i])
        invariant after == ReportedAll(s, contractId, events[..i], report)
      {
        assert events[..i + 1][..i] == events[..i];
        var isNew := store.RecordEvent(events[i]);
        if !isNew {
          continue;
        }
        after := ProjectEvent(events[i], after.(recorded := after.recorded + 1));
      }
      assert events[..|events|] == events;
    }

    /** One page: its events, then its cursor, persisted so that a crash resumes here. */
    method ReadPage(page: nat, cursor: Option<nat>, report: Report)
      returns (after: Report, next: Option<nat>, idle: bool)
      modifies store
      ensures next == Moved(cursor, source(page, cursor)) && idle == Idle(source(page, cursor), cursor)
      ensures TookPage(old(store.State()), store.State(), contractId, source(page, cursor), report, after)
      ensures store.cursors == old(store.cursors)[name := S.Cursor(next, source(page, cursor).latestLedger)]
    {
      var result := source(page, cursor);
      after := TakePage(result.events, report.(fetched := report.fetched + |result.events|));
      DeliveryKeepsCursors(old(store.State()), contractId, result.events);
      next := if result.cursor.Some? then result.cursor else cursor;
      store.SaveCursor(name, S.Cursor(next, result.latestLedger));
      idle := next == cursor && result.events == [];
    }

    /** One more page, with what has been read so far. */
    method NextPage(page: nat, maxPages: nat, cursor: Option<nat>, report: Report, ghost s: S.Store,
                    ghost pages: seq<EventPage>, ghost start: Option<nat>)
      returns (after: Report, next: Option<nat>, idle: bool, ghost read: seq<EventPage>)
      requires page < maxPages && ReadSoFar(s, store.State(), contractId, name, pages, report, cursor, start)
      modifies store
      ensures ReadSoFar(s, store.State(), contractId, name, read, after, next, start)
      ensures read == pages + [source(page, cursor)]
      ensures read + Remaining(source, page + 1, maxPages, next, idle)
              == pages + Remaining(source, page, maxPages, cursor, false)
    {
      ghost var before := store.State();
      after, next, idle := ReadPage(page, cursor, report);
      PageRead(source, page, maxPages, cursor, pages, next, idle);
      PageDelivered(s, before, store.State(), contractId, pages, source(page, cursor), report, after);
      CursorMovesOn(s.cursors, before.cursors, name, pages, start, source(page, cursor));
      CursorAfterOneMore(pages, source(page, cursor), start);
      read := pages + [source(page, cursor)];
    }

    /** Reads at most `maxPages` pages; whatever the paging, the store is what delivering their events in
        order makes it, and the report counts what was fetched and what was new. */
    method Poll(maxPages: nat) returns (report: Report)
      modifies store
      ensures Polled(old(store.State()), store.State(), contractId, name, source, maxPages, report)
    {
      report := NO_REPORT;
      ghost var s := store.State();
      var cursor := if name in store.cursors then store.cursors[name].cursor else None;
      var page, idle := 0, false;
      ghost var start, pages: seq<EventPage>, all := cursor, [], Remaining(source, 0, maxPages, cursor, false);
      NothingRead(s, contractId, name, start);
      while page < maxPages && !idle
        invariant page <= maxPages && pages + Remaining(source, page, maxPages, cursor, idle) == all
        invariant ReadSoFar(s, store.State(), contractId, name, pages, report, cursor, start)
        decreases maxPages - page
      {
        report, cursor, idle, pages := NextPage(page, maxPages, cursor, report, s, pages, start);
        page := page + 1;
      }
      NothingRemains(source, page, maxPages, cursor, idle);
      ReadToTheEnd(s, store.State(), contractId, name, source, maxPages, report, pages, cursor, start);
    }
  }
}
