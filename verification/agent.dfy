/** The settlement agent: one cycle of sweeping and paying within what the vault can cover. */
module Agent {
  import opened Primitives
  import opened GateSpec
  import opened GateTheorems
  import opened Amount
  import opened Protocol
  import opened ProtocolSafety
  import S = SettlementStore

  /** A payable the kernel calls READY; `expiresAt` is its expiry in milliseconds. */
  datatype Candidate = Candidate(payableId: Str, amount: Str, expiresAt: int)

  // ------------------------------------------------------------------ sorting

  /** Behind everything that expires no later: the insertion step of a stable sort. */
  function InsertByExpiry(c: Candidate, cs: seq<Candidate>): seq<Candidate> {
    if cs == [] || cs[0].expiresAt > c.expiresAt then [c] + cs else [cs[0]] + InsertByExpiry(c, cs[1..])
  }

  function ByExpiry(cs: seq<Candidate>): seq<Candidate> {
    if cs == [] then [] else InsertByExpiry(cs[|cs| - 1], ByExpiry(cs[..|cs| - 1]))
  }

  ghost predicate InOrder(cs: seq<Candidate>) {
    forall i, j :: 0 <= i < j < |cs| ==> cs[i].expiresAt <= cs[j].expiresAt
  }

  function Expiring(cs: seq<Candidate>, at: int): seq<Candidate> {
    if cs == [] then [] else Due(cs[0], at) + Expiring(cs[1..], at)
  }

  function Due(c: Candidate, at: int): seq<Candidate> {
    if c.expiresAt == at then [c] else []
  }

  lemma {:induction false} InsertKeepsAll(c: Candidate, cs: seq<Candidate>)
    ensures multiset(InsertByExpiry(c, cs)) == multiset(cs) + multiset{c}
  {
    if cs != [] && cs[0].expiresAt <= c.expiresAt {
      InsertKeepsAll(c, cs[1..]);
      assert cs == [cs[0]] + cs[1..];
    }
  }

  lemma {:induction false} InsertKeepsOrder(c: Candidate, cs: seq<Candidate>)
    requires InOrder(cs)
    ensures InOrder(InsertByExpiry(c, cs))
  {
    if cs != [] && cs[0].expiresAt <= c.expiresAt {
      InsertKeepsOrder(c, cs[1..]);
      InsertKeepsAll(c, cs[1..]);
      var tail := InsertByExpiry(c, cs[1..]);
      forall j | 0 <= j < |tail| ensures cs[0].expiresAt <= tail[j].expiresAt {
        assert tail[j] in multiset(tail);
        assert tail[j] == c || tail[j] in cs[1..];
      }
    }
  }

  lemma {:induction false} InsertKeepsTies(c: Candidate, cs: seq<Candidate>, at: int)
    requires InOrder(cs)
    ensures Expiring(InsertByExpiry(c, cs), at) == Expiring(cs, at) + Due(c, at)
  {
    if cs == [] || cs[0].expiresAt > c.expiresAt {
      assert ([c] + cs)[1..] == cs;
      NothingThatEarly(cs, c.expiresAt);
    } else {
      InsertKeepsTies(c, cs[1..], at);
      assert ([cs[0]] + InsertByExpiry(c, cs[1..]))[1..] == InsertByExpiry(c, cs[1..]);
    }
  }

  lemma {:induction false} NothingThatEarly(cs: seq<Candidate>, at: int)
    requires InOrder(cs) && (cs != [] ==> cs[0].expiresAt > at)
    ensures Expiring(cs, at) == []
  {
    if cs != [] {
      NothingThatEarly(cs[1..], at);
    }
  }

  lemma ExpiringFirst(c: Candidate, rest: seq<Candidate>, at: int)
    ensures Expiring([c] + rest, at) == Due(c, at) + Expiring(rest, at)
  {
    assert ([c] + rest)[1..] == rest;
  }

  lemma {:induction false} ExpiringAppend(cs: seq<Candidate>, c: Candidate, at: int)
    ensures Expiring(cs + [c], at) == Expiring(cs, at) + Due(c, at)
  {
    if cs == [] {
      assert cs + [c] == [c];
      ExpiringFirst(c, [], at);
    } else {
      var first, rest := cs[0], cs[1..];
      ExpiringFirst(first, rest + [c], at);
      ExpiringAppend(rest, c, at);
      calc {
        Expiring(cs + [c], at);
        { assert cs + [c] == [first] + (rest + [c]); }
        Due(first, at) + Expiring(rest + [c], at);
        Due(first, at) + (Expiring(rest, at) + Due(c, at));
        Expiring(cs, at) + Due(c, at);
      }
    }
  }

  /** Soonest first, nothing lost or added, and ties left in the order they came. */
  lemma {:induction false} SortMeaning(cs: seq<Candidate>)
    ensures InOrder(ByExpiry(cs)) && multiset(ByExpiry(cs)) == multiset(cs)
    ensures forall at :: Expiring(ByExpiry(cs), at) == Expiring(cs, at)
  {
    if cs != [] {
      var n := |cs| - 1;
      SortMeaning(cs[..n]);
      InsertKeepsAll(cs[n], ByExpiry(cs[..n]));
      InsertKeepsOrder(cs[n], ByExpiry(cs[..n]));
      assert cs == cs[..n] + [cs[n]];
      forall at ensures Expiring(ByExpiry(cs), at) == Expiring(cs, at) {
        ExpiringAppend(cs[..n], cs[n], at);
        InsertKeepsTies(cs[n], ByExpiry(cs[..n]), at);
      }
    }
  }

  // ---------------------------------------------------------------- one cycle

  /** How an attempt to sign and settle ends. */
  datatype Attempt = PaidBy(tx: TxHash) | FoundPaid(recorded: Option<TxHash>) | Refusal(reason: Str)

  /** What the cycle meets when it gets to its i-th candidate. `registered` is whether the stored proof shows
      REGISTERED, None when the store does not answer; that read is outside the catch around the attempt. */
  datatype Encounter = Encounter(registered: Option<bool>, attempt: Attempt)

  predicate IsNew(e: Encounter) {
    e.registered == Some(false)
  }

  /** What ends a cycle before its last candidate. */
  datatype CycleError = BadAmount(cause: AmountError) | Unread

  datatype Fate = Settles | Lacks | Lapses | Fails

  /** Lists hold positions in the sorted candidates. */
  datatype Progress = Progress(available: int, settled: seq<nat>, skipped: seq<nat>, failed: seq<nat>)

  function FateOf(units: int, c: Candidate, e: Encounter, available: int, nowSeconds: int): Fate {
    if IsNew(e) && units > available then Lacks
    else if c.expiresAt <= nowSeconds * 1000 then Lapses
    else if e.attempt.Refusal? then Fails
    else Settles
  }

  function Advanced(p: Progress, i: nat, fate: Fate, units: int, e: Encounter): Progress {
    match fate
    case Lacks => p.(skipped := p.skipped + [i])
    case Lapses => p.(skipped := p.skipped + [i])
    case Fails => p.(failed := p.failed + [i])
    case Settles =>
      p.(settled := p.settled + [i], available := if e.attempt.PaidBy? && IsNew(e) then p.available - units
                                                  else p.available)
  }

  type Price = Result<int, AmountError>

  function Prices(cs: seq<Candidate>): (prices: seq<Price>)
    ensures |prices| == |cs| && forall i :: 0 <= i < |cs| ==> prices[i] == DecimalToUnits(cs[i].amount)
  {
    seq(|cs|, i requires 0 <= i < |cs| => DecimalToUnits(cs[i].amount))
  }

  /** One candidate: its amount is converted first, then its stored proof is looked up. */
  function Considered(p: Progress, i: nat, c: Candidate, price: Price, e: Encounter, nowSeconds: int)
    : Result<Progress, CycleError>
  {
    match price
    case Failure(cause) => Failure(BadAmount(cause))
    case Success(units) =>
      if e.registered.None? then Failure(Unread)
      else Success(Advanced(p, i, FateOf(units, c, e, p.available, nowSeconds), units, e))
  }

  /** The first n candidates, or what ended the cycle. */
  function Cycle(cs: seq<Candidate>, prices: seq<Price>, meets: nat -> Encounter, available: int, nowSeconds: int,
                 n: nat): Result<Progress, CycleError>
    requires n <= |cs| == |prices|
  {
    if n == 0 then Success(Progress(available, [], [], []))
    else
      match Cycle(cs, prices, meets, available, nowSeconds, n - 1)
      case Failure(e) => Failure(e)
      case Success(p) => Considered(p, n - 1, cs[n - 1], prices[n - 1], meets(n - 1), nowSeconds)
  }

  ghost predicate Increasing(s: seq<nat>, n: nat) {
    (forall i, j :: 0 <= i < j < |s| ==> s[i] < s[j]) && forall i :: 0 <= i < |s| ==> s[i] < n
  }

  /** How many of the lists hold a position, and how often. */
  function Places(p: Progress, i: nat): nat {
    multiset(p.settled)[i] + multiset(p.skipped)[i] + multiset(p.failed)[i]
  }

  /** The positions below n, each in exactly one list, each list in the order they were taken. */
  ghost predicate Partition(p: Progress, n: nat) {
    Increasing(p.settled, n) && Increasing(p.skipped, n) && Increasing(p.failed, n)
    && forall i: nat :: i < n ==> Places(p, i) == 1
  }

  lemma IncreasingAppend(s: seq<nat>, n: nat)
    requires Increasing(s, n)
    ensures Increasing(s + [n], n + 1) && Increasing(s, n + 1) && multiset(s)[n] == 0
  {
  }

  lemma AdvancedPartition(p: Progress, n: nat, fate: Fate, units: int, e: Encounter)
    requires Partition(p, n)
    ensures Partition(Advanced(p, n, fate, units, e), n + 1)
  {
    IncreasingAppend(p.settled, n);
    IncreasingAppend(p.skipped, n);
    IncreasingAppend(p.failed, n);
    assert Places(p, n) == 0;
    forall i: nat | i < n + 1 ensures Places(Advanced(p, n, fate, units, e), i) == 1 {
      assert i < n ==> Places(p, i) == 1;
    }
  }

  lemma {:induction false} CyclePartitions(cs: seq<Candidate>, prices: seq<Price>, meets: nat -> Encounter,
                                           available: int, nowSeconds: int, n: nat)
    requires n <= |cs| == |prices| && Cycle(cs, prices, meets, available, nowSeconds, n).Success?
    ensures Partition(Cycle(cs, prices, meets, available, nowSeconds, n).value, n)
  {
    if n > 0 {
      CyclePartitions(cs, prices, meets, available, nowSeconds, n - 1);
      var p := Cycle(cs, prices, meets, available, nowSeconds, n - 1).value;
      var e, units := meets(n - 1), prices[n - 1].value;
      AdvancedPartition(p, n - 1, FateOf(units, cs[n - 1], e, p.available, nowSeconds), units, e);
    }
  }

  ghost predicate Priced(prices: seq<Price>, settled: seq<nat>) {
    forall i :: 0 <= i < |settled| ==> settled[i] < |prices| && prices[settled[i]].Success?
  }

  /** The units of the candidates in a list that were paid now and had not been registered before. */
  ghost function FreshlyPaid(prices: seq<Price>, meets: nat -> Encounter, settled: seq<nat>): int
    requires Priced(prices, settled)
  {
    if settled == [] then 0
    else
      var i := settled[|settled| - 1];
      FreshlyPaid(prices, meets, settled[..|settled| - 1])
      + if meets(i).attempt.PaidBy? && IsNew(meets(i)) then prices[i].value else 0
  }

  lemma FreshlyPaidAppend(prices: seq<Price>, meets: nat -> Encounter, settled: seq<nat>, i: nat)
    requires Priced(prices, settled) && i < |prices| && prices[i].Success?
    ensures Priced(prices, settled + [i])
    ensures FreshlyPaid(prices, meets, settled + [i])
            == FreshlyPaid(prices, meets, settled)
               + if meets(i).attempt.PaidBy? && IsNew(meets(i)) then prices[i].value else 0
  {
    var q := settled + [i];
    assert q[|q| - 1] == i && q[..|q| - 1] == settled;
  }

  ghost predicate Within(p: Progress, prices: seq<Price>, meets: nat -> Encounter, available: int) {
    Priced(prices, p.settled) && FreshlyPaid(prices, meets, p.settled) == available - p.available && 0 <= p.available
  }

  lemma AdvancedWithin(p: Progress, prices: seq<Price>, meets: nat -> Encounter, available: int, i: nat,
                       c: Candidate, nowSeconds: int)
    requires Within(p, prices, meets, available) && i < |prices| && prices[i].Success? && prices[i].value > 0
    ensures var units := prices[i].value;
            Within(Advanced(p, i, FateOf(units, c, meets(i), p.available, nowSeconds), units, meets(i)), prices,
                   meets, available)
  {
    FreshlyPaidAppend(prices, meets, p.settled, i);
  }

  /** What the cycle newly commits and pays comes out of the figure it read, and never exceeds it. */
  lemma {:induction false} CycleStaysWithin(cs: seq<Candidate>, prices: seq<Price>, meets: nat -> Encounter,
                                            available: int, nowSeconds: int, n: nat)
    requires n <= |cs| == |prices| && available >= 0 && Cycle(cs, prices, meets, available, nowSeconds, n).Success?
    requires forall i :: 0 <= i < |prices| && prices[i].Success? ==> prices[i].value > 0
    ensures Within(Cycle(cs, prices, meets, available, nowSeconds, n).value, prices, meets, available)
  {
    if n > 0 {
      CycleStaysWithin(cs, prices, meets, available, nowSeconds, n - 1);
      AdvancedWithin(Cycle(cs, prices, meets, available, nowSeconds, n - 1).value, prices, meets, available, n - 1,
                     cs[n - 1], nowSeconds);
    }
  }

  /** A cycle ends early exactly at a candidate whose amount does not convert or whose proof cannot be read. */
  lemma {:induction false} CycleAborts(
      cs: seq<Candidate>, prices: seq<Price>, meets: nat -> Encounter, available: int, nowSeconds: int, n: nat)
    requires n <= |cs| == |prices|
    ensures Cycle(cs, prices, meets, available, nowSeconds, n).Failure?
            <==> exists i: nat :: i < n && (prices[i].Failure? || meets(i).registered.None?)
  {
    if n > 0 {
      CycleAborts(cs, prices, meets, available, nowSeconds, n - 1);
    }
  }

  // ------------------------------------------------------ which list, and why

  /** Units newly paid for candidates before position i. */
  ghost function SpentBefore(prices: seq<Price>, meets: nat -> Encounter, settled: seq<nat>, i: nat): int
    requires Priced(prices, settled)
  {
    if i == 0 then 0
    else
      SpentBefore(prices, meets, settled, i - 1)
      + if i - 1 in settled && meets(i - 1).attempt.PaidBy? && meets(i - 1).registered == Some(false)
        then prices[i - 1].value else 0
  }

  /** It is already committed on-chain, or fits into what is left of the figure read. */
  ghost predicate Affordable(prices: seq<Price>, meets: nat -> Encounter, settled: seq<nat>, available: int, i: nat)
    requires Priced(prices, settled) && i < |prices| && prices[i].Success?
  {
    meets(i).registered != Some(false) || prices[i].value <= available - SpentBefore(prices, meets, settled, i)
  }

  /** A candidate is attempted exactly when it is affordable and not yet expired; then the attempt decides. */
  ghost predicate FateAt(cs: seq<Candidate>, prices: seq<Price>, meets: nat -> Encounter, available: int,
                         nowSeconds: int, p: Progress, i: nat)
    requires Priced(prices, p.settled) && i < |cs| == |prices|
  {
    prices[i].Success? && meets(i).registered.Some?
    && var attempted := Affordable(prices, meets, p.settled, available, i) && cs[i].expiresAt > 1000 * nowSeconds;
       (i in p.skipped <==> !attempted)
       && (i in p.failed <==> attempted && meets(i).attempt.Refusal?)
       && (i in p.settled <==> attempted && !meets(i).attempt.Refusal?)
  }

  ghost predicate Fates(cs: seq<Candidate>, prices: seq<Price>, meets: nat -> Encounter, available: int,
                        nowSeconds: int, p: Progress, n: nat)
    requires n <= |cs| == |prices|
  {
    Priced(prices, p.settled) && p.available == available - SpentBefore(prices, meets, p.settled, n)
    && forall i: nat :: i < n ==> FateAt(cs, prices, meets, available, nowSeconds, p, i)
  }

  lemma {:induction false} SpentAppend(prices: seq<Price>, meets: nat -> Encounter, settled: seq<nat>, n: nat, i: nat)
    requires Priced(prices, settled) && Priced(prices, settled + [n]) && i <= n
    ensures SpentBefore(prices, meets, settled + [n], i) == SpentBefore(prices, meets, settled, i)
  {
    if i > 0 {
      SpentAppend(prices, meets, settled, n, i - 1);
    }
  }

  lemma FateKept(cs: seq<Candidate>, prices: seq<Price>, meets: nat -> Encounter, available: int, nowSeconds: int,
                 p: Progress, q: Progress, n: nat, i: nat)
    requires i < n < |cs| == |prices| && Priced(prices, p.settled) && Priced(prices, q.settled)
    requires q.settled == p.settled || q.settled == p.settled + [n]
    requires q.skipped == p.skipped || q.skipped == p.skipped + [n]
    requires q.failed == p.failed || q.failed == p.failed + [n]
    requires FateAt(cs, prices, meets, available, nowSeconds, p, i)
    ensures FateAt(cs, prices, meets, available, nowSeconds, q, i)
  {
    if q.settled != p.settled {
      SpentAppend(prices, meets, p.settled, n, i);
    }
  }

  lemma FateOfNext(cs: seq<Candidate>, prices: seq<Price>, meets: nat -> Encounter, available: int, nowSeconds: int,
                   p: Progress, n: nat)
    requires n < |cs| == |prices| && prices[n].Success? && meets(n).registered.Some?
    requires Priced(prices, p.settled) && p.available == available - SpentBefore(prices, meets, p.settled, n)
    requires n !in p.settled && n !in p.skipped && n !in p.failed
    ensures var units := prices[n].value;
            var q := Advanced(p, n, FateOf(units, cs[n], meets(n), p.available, nowSeconds), units, meets(n));
            Priced(prices, q.settled) && FateAt(cs, prices, meets, available, nowSeconds, q, n)
            && q.available == available - SpentBefore(prices, meets, q.settled, n + 1)
  {
    var units := prices[n].value;
    var q := Advanced(p, n, FateOf(units, cs[n], meets(n), p.available, nowSeconds), units, meets(n));
    if q.settled != p.settled {
      assert forall i :: 0 <= i < |p.settled| ==> q.settled[i] == p.settled[i];
      SpentAppend(prices, meets, p.settled, n, n);
      assert q.settled[|p.settled|] == n;
    }
    assert q.skipped != p.skipped ==> q.skipped[|p.skipped|] == n;
    assert q.failed != p.failed ==> q.failed[|p.failed|] == n;
  }

  /** Which list each candidate ends in: nobody is skipped who could be paid, nobody attempted who could not. */
  lemma {:induction false} CycleFates(cs: seq<Candidate>, prices: seq<Price>, meets: nat -> Encounter, available: int,
                                      nowSeconds: int, n: nat)
    requires n <= |cs| == |prices| && Cycle(cs, prices, meets, available, nowSeconds, n).Success?
    ensures Fates(cs, prices, meets, available, nowSeconds, Cycle(cs, prices, meets, available, nowSeconds, n).value, n)
  {
    if n > 0 {
      var p := Cycle(cs, prices, meets, available, nowSeconds, n - 1).value;
      var q := Cycle(cs, prices, meets, available, nowSeconds, n).value;
      CycleFates(cs, prices, meets, available, nowSeconds, n - 1);
      CyclePartitions(cs, prices, meets, available, nowSeconds, n - 1);
      OneMoreFate(cs, prices, meets, available, nowSeconds, p, q, n - 1);
    }
  }

  lemma OneMoreFate(cs: seq<Candidate>, prices: seq<Price>, meets: nat -> Encounter, available: int, nowSeconds: int,
                    p: Progress, q: Progress, n: nat)
    requires n < |cs| == |prices| && Fates(cs, prices, meets, available, nowSeconds, p, n) && Partition(p, n)
    requires Considered(p, n, cs[n], prices[n], meets(n), nowSeconds) == Success(q)
    ensures Fates(cs, prices, meets, available, nowSeconds, q, n + 1)
  {
    FateOfNext(cs, prices, meets, available, nowSeconds, p, n);
    forall i: nat | i < n ensures FateAt(cs, prices, meets, available, nowSeconds, q, i) {
      FateKept(cs, prices, meets, available, nowSeconds, p, q, n, i);
    }
  }

  /** What a cycle reports: names, in the order they were dealt with. */
  datatype Report = Report(indexerFailed: bool, swept: nat, settled: seq<Str>, skipped: seq<Str>, failed: seq<Str>)

  function Names(cs: seq<Candidate>, positions: seq<nat>): (names: seq<Str>)
    requires forall i :: 0 <= i < |positions| ==> positions[i] < |cs|
    ensures |names| == |positions|
  {
    seq(|positions|, i requires 0 <= i < |positions| => cs[positions[i]].payableId)
  }

  /** The READY payables that have no settlement record. */
  function Unsettled(ready: seq<Candidate>, store: S.Store): seq<Candidate> {
    if ready == [] then []
    else
      var n := |ready| - 1;
      Unsettled(ready[..n], store) + if ready[n].payableId in store.settlements then [] else [ready[n]]
  }

  lemma {:induction false} UnsettledMeaning(ready: seq<Candidate>, store: S.Store, c: Candidate)
    ensures multiset(Unsettled(ready, store))[c] == if c.payableId in store.settlements then 0 else multiset(ready)[c]
  {
    if ready != [] {
      var n := |ready| - 1;
      UnsettledMeaning(ready[..n], store, c);
      assert ready == ready[..n] + [ready[n]];
    }
  }

  lemma {:induction false} UnsettledKeepsOrder(ready: seq<Candidate>, more: seq<Candidate>, store: S.Store)
    ensures Unsettled(ready + more, store) == Unsettled(ready, store) + Unsettled(more, store)
  {
    if more == [] {
      assert ready + more == ready;
    } else {
      var n := |more| - 1;
      assert (ready + more)[..|ready + more| - 1] == ready + more[..n];
      UnsettledKeepsOrder(ready, more[..n], store);
    }
  }

  // ------------------------------------------------------------------- sweep

  /** What `#sweep` writes for the ids it expired, and how many it counts. */
  function SweptStore(store: S.Store, g: Gate, ids: seq<Bytes32>): (S.Store, nat) {
    if ids == [] then (store, 0)
    else
      var n := |ids| - 1;
      var (before, count) := SweptStore(store, g, ids[..n]);
      if Has(g, ids[n], Expired) then (S.SetProofStatus(before, ids[n], S.Expired, None), count + 1)
      else if Has(g, ids[n], Settled) then (S.SetProofStatus(before, ids[n], S.Settled, None), count)
      else (before, count)
  }

  /** How far a run of awaits from position i gets: to the first that does not answer. */
  function Answering(answers: nat -> bool, i: nat, n: nat): (k: nat)
    requires i <= n
    ensures i <= k <= n && (forall j :: i <= j < k ==> answers(j)) && (k < n ==> !answers(k))
    decreases n - i
  {
    if i == n || !answers(i) then i else Answering(answers, i + 1, n)
  }

  ghost predicate AllAnswer(answers: nat -> bool, n: nat) {
    forall i: nat :: i < n ==> answers(i)
  }

  /** What a cycle asks for after the indexer's turn. None, or false at a position, is an await that throws:
      `lapsed` lists the open registrations past their expiry, `onChain` covers what the sweep awaits for its i-th
      id once its call was answered, `recorded` the look for a settlement record of the i-th READY payable. */
  datatype Answers = Answers(lapsed: Option<seq<Bytes32>>, onChain: nat -> bool, ready: Option<seq<Candidate>>,
                         recorded: nat -> bool, available: Option<nat>)

  ghost predicate SweepAnswers(given: Answers, response: Response) {
    given.lapsed.Some?
    && (given.lapsed.value == [] || (response.Answered? && AllAnswer(given.onChain, |given.lapsed.value|)))
  }

  ghost predicate ReadsAnswer(given: Answers) {
    given.ready.Some? && AllAnswer(given.recorded, |given.ready.value|) && given.available.Some?
  }

  datatype SweepEnd = SweepEnd(gate: Gate, store: S.Store, swept: Option<nat>)

  /** The whole sweep: the gate and the store it leaves, and its count; None when something it awaits throws. The
      ids before that point have been written. */
  function SweepResult(store: S.Store, g: Gate, response: Response, given: Answers): SweepEnd
    requires Sane(g)
  {
    match given.lapsed
    case None => SweepEnd(g, store, None)
    case Some(lapsed) =>
      if lapsed == [] then SweepEnd(g, store, Some(0))
      else
        var (after, result) := SubmitExpireBatch(g, response, lapsed);
        if !result.Submitted? then SweepEnd(after, store, None)
        else
          var k := Answering(given.onChain, 0, |lapsed|);
          var (written, count) := SweptStore(store, after, lapsed[..k]);
          SweepEnd(after, written, if k < |lapsed| then None else Some(count))
  }

  /** After the sweep's writes every listed proof shows EXPIRED or SETTLED when the chain does; one the chain shows
      REVOKED keeps its old status. Nothing else about the proofs changes, and nothing else in the store. */
  lemma {:induction false} SweepWrites(store: S.Store, g: Gate, ids: seq<Bytes32>, id: Bytes32)
    ensures var after := SweptStore(store, g, ids).0;
            after == store.(proofs := after.proofs) && after.proofs.Keys == store.proofs.Keys
            && (id in store.proofs ==>
                  after.proofs[id] == store.proofs[id].(
                    status := if id in ids && Has(g, id, Expired) then S.Expired
                              else if id in ids && Has(g, id, Settled) then S.Settled
                              else store.proofs[id].status))
  {
    if ids != [] {
      var n := |ids| - 1;
      SweepWrites(store, g, ids[..n], id);
      assert ids == ids[..n] + [ids[n]];
    }
  }

  ghost function ExpiredAt(g: Gate, ids: seq<Bytes32>): set<nat> {
    set i: nat | i < |ids| && Has(g, ids[i], Expired)
  }

  /** It counts the listed ids, repetitions included, that the chain shows EXPIRED. */
  lemma {:induction false} SweepCounts(store: S.Store, g: Gate, ids: seq<Bytes32>)
    ensures SweptStore(store, g, ids).1 == |ExpiredAt(g, ids)|
  {
    if ids != [] {
      var n := |ids| - 1;
      SweepCounts(store, g, ids[..n]);
      assert forall i: nat :: i < n ==> ids[..n][i] == ids[i];
      assert ExpiredAt(g, ids) == ExpiredAt(g, ids[..n]) + if Has(g, ids[n], Expired) then {n} else {};
    }
  }

  /** How far the sweep got: the ids before the first look that threw. */
  ghost predicate Reached(given: Answers, lapsed: seq<Bytes32>, k: nat) {
    k <= |lapsed| && AllAnswer(given.onChain, k) && (k < |lapsed| ==> !given.onChain(k))
  }

  /** How a sweep ends. It completes exactly when everything it awaits answers, and counts what the chain then shows
      EXPIRED; the gate moves when its call arrives, answered or not; it writes only after an answer, and only for the
      ids it got to. */
  lemma SweepEnds(store: S.Store, g: Gate, response: Response, given: Answers, k: nat)
    requires Sane(g) && (given.lapsed.Some? ==> Reached(given, given.lapsed.value, k))
    ensures var end := SweepResult(store, g, response, given);
            var lapsed := if given.lapsed.Some? then given.lapsed.value else [];
            (end.swept.Some? <==> SweepAnswers(given, response))
            && (end.swept.Some? ==> end.swept.value == |ExpiredAt(end.gate, lapsed)|)
            && (end.gate == if lapsed != [] && (response.Answered? || response.ResponseLost?)
                            then ExpireBatch(g.(clock := response.env.now), response.env, lapsed).0 else g)
            && (end.store == if lapsed != [] && response.Answered? then SweptStore(store, end.gate, lapsed[..k]).0
                             else store)
  {
    if given.lapsed.Some? {
      var lapsed := given.lapsed.value;
      assert Answering(given.onChain, 0, |lapsed|) == k;
      assert lapsed[..|lapsed|] == lapsed;
      SweepCounts(store, SweepResult(store, g, response, given).gate, lapsed);
    }
  }

  // ------------------------------------------ the same sweep, one await at a time

  /** n awaits of one sweep with nobody else acting in between. */
  function SweepAwaits(s: Shared, pc: SweepPc, c: Choice, n: nat): (Shared, SweepPc)
    requires Sane(s.gate) && (pc.MarkSwept? ==> pc.ids != [])
    decreases n
  {
    if n == 0 then (s, pc)
    else
      SweepStaysSane(s, pc, c);
      var (s', pc') := SweepStep(s, pc, c);
      SweepAwaits(s', pc', c, n - 1)
  }

  lemma SweepStaysSane(s: Shared, pc: SweepPc, c: Choice)
    requires Sane(s.gate) && (pc.MarkSwept? ==> pc.ids != [])
    ensures var (s', pc') := SweepStep(s, pc, c); Sane(s'.gate) && (pc'.MarkSwept? ==> pc'.ids != [])
  {
  }

  lemma {:induction false} SweptResumes(store: S.Store, g: Gate, xs: seq<Bytes32>, ys: seq<Bytes32>)
    ensures SweptStore(store, g, xs + ys).0 == SweptStore(SweptStore(store, g, xs).0, g, ys).0
  {
    if ys == [] {
      assert xs + ys == xs;
    } else {
      var n := |ys| - 1;
      assert (xs + ys)[..|xs + ys| - 1] == xs + ys[..n];
      SweptResumes(store, g, xs, ys[..n]);
    }
  }

  lemma OneSwept(store: S.Store, g: Gate, ids: seq<Bytes32>)
    requires ids != []
    ensures SweptStore(store, g, ids).0
            == SweptStore(if Has(g, ids[0], Expired) then S.SetProofStatus(store, ids[0], S.Expired, None)
                          else if Has(g, ids[0], Settled) then S.SetProofStatus(store, ids[0], S.Settled, None)
                          else store, g, ids[1..]).0
  {
    assert ids == [ids[0]] + ids[1..] && [ids[0]][..0] == [];
    SweptResumes(store, g, [ids[0]], ids[1..]);
  }

  lemma {:induction false} LookingSweeps(s: Shared, ids: seq<Bytes32>, c: Choice, n: nat)
    requires Sane(s.gate) && n >= 2 * |ids| + 1
    ensures SweepAwaits(s, LookAt(ids), c, n) == (s.(store := SweptStore(s.store, s.gate, ids).0), Swept)
    decreases |ids|
  {
    if ids == [] {
      SweptRests(s, c, n - 1);
    } else {
      OneSwept(s.store, s.gate, ids);
      var (s1, pc1) := SweepStep(s, LookAt(ids), c);
      if pc1.MarkSwept? {
        assert SweepAwaits(s, LookAt(ids), c, n) == SweepAwaits(s1, pc1, c, n - 1);
        var (s2, pc2) := SweepStep(s1, pc1, c);
        LookingSweeps(s2, ids[1..], c, n - 2);
      } else {
        LookingSweeps(s1, ids[1..], c, n - 1);
      }
    }
  }

  lemma {:induction false} SweptRests(s: Shared, c: Choice, n: nat)
    requires Sane(s.gate)
    ensures SweepAwaits(s, Swept, c, n) == (s, Swept)
  {
    if n > 0 {
      SweptRests(s, c, n - 1);
    }
  }

  /** Left alone, the step machine's awaits do exactly what `SweepResult` says of a sweep whose reads all answer. */
  lemma AwaitsSweep(s: Shared, c: Choice, given: Answers, n: nat)
    requires Sane(s.gate) && n >= 2 * |c.ids| + 3
    requires given.lapsed == Some(c.ids) && AllAnswer(given.onChain, |c.ids|)
    ensures var end := SweepResult(s.store, s.gate, c.response, given);
            SweepAwaits(s, ListLapsed, c, n) == (Shared(end.gate, end.store), Swept)
  {
    var (s1, pc1) := SweepStep(s, ListLapsed, c);
    assert SweepAwaits(s, ListLapsed, c, n) == SweepAwaits(s1, pc1, c, n - 1);
    if c.ids == [] {
      SweptRests(s1, c, n - 1);
    } else {
      SweepStaysSane(s1, pc1, c);
      var (s2, pc2) := SweepStep(s1, pc1, c);
      assert SweepAwaits(s1, pc1, c, n - 1) == SweepAwaits(s2, pc2, c, n - 2);
      if pc2.LookAt? {
        assert Answering(given.onChain, 0, |c.ids|) == |c.ids| && c.ids[..|c.ids|] == c.ids;
        LookingSweeps(s2, c.ids, c, n - 2);
      } else {
        SweptRests(s2, c, n - 2);
      }
    }
  }

  lemma {:induction false} SweepStaysBacked(crypto: Crypto, store: S.Store, g: Gate, ids: seq<Bytes32>)
    requires Backed(crypto, g, store)
    ensures Backed(crypto, g, SweptStore(store, g, ids).0)
  {
    if ids != [] {
      var n := |ids| - 1;
      SweepStaysBacked(crypto, store, g, ids[..n]);
      var before := SweptStore(store, g, ids[..n]).0;
      if Has(g, ids[n], Expired) {
        StatusStaysBacked(crypto, g, before, ids[n], S.Expired, None);
      } else if Has(g, ids[n], Settled) {
        StatusStaysBacked(crypto, g, before, ids[n], S.Settled, None);
      }
    }
  }

  class SettlementAgent {
    const crypto: Crypto
    const store: S.MemorySettlementStore
    var chain: Gate

    constructor (crypto: Crypto, store: S.MemorySettlementStore, chain: Gate)
      ensures this.crypto == crypto && this.store == store && this.chain == chain
    {
      this.crypto, this.store, this.chain := crypto, store, chain;
    }

    /** Expires what has lapsed and notes what the chain then shows; None exactly when something it awaits throws. */
    method Sweep(given: Answers, response: Response) returns (swept: Option<nat>)
      requires SharedOk(crypto, Shared(chain, store.State())) && Timely(chain, response)
      modifies this`chain, store
      ensures SweepEnd(chain, store.State(), swept) == old(SweepResult(store.State(), chain, response, given))
      ensures swept.Some? <==> SweepAnswers(given, response)
      ensures SharedOk(crypto, Shared(chain, store.State()))
    {
      if given.lapsed.None? {
        return None;
      }
      var lapsed := given.lapsed.value;
      if lapsed == [] {
        return Some(0);
      }
      ExpireCallKeepsGate(crypto, chain, response, lapsed);
      BackingStays(crypto, chain, SubmitExpireBatch(chain, response, lapsed).0, store.State());
      var (after, result) := SubmitExpireBatch(chain, response, lapsed);
      chain := after;
      if !result.Submitted? {
        return None;
      }
      swept := NoteOnChain(lapsed, given.onChain);
    }

    /** Reads each id back and writes what it finds, up to the first that does not answer. */
    method NoteOnChain(lapsed: seq<Bytes32>, onChain: nat -> bool) returns (expired: Option<nat>)
      requires SharedOk(crypto, Shared(chain, store.State()))
      modifies store
      ensures var k := Answering(onChain, 0, |lapsed|);
              var (written, count) := SweptStore(old(store.State()), chain, lapsed[..k]);
              store.State() == written && expired == if k < |lapsed| then None else Some(count)
      ensures Backed(crypto, chain, store.State())
    {
      ghost var s := store.State();
      var count := 0;
      for i := 0 to |lapsed|
        invariant (store.State(), count) == SweptStore(s, chain, lapsed[..i])
        invariant Answering(onChain, 0, |lapsed|) == Answering(onChain, i, |lapsed|)
      {
        if !onChain(i) {
          SweepStaysBacked(crypto, s, chain, lapsed[..i]);
          return None;
        }
        assert lapsed[..i + 1][..i] == lapsed[..i];
        var seen := OnChain(chain, lapsed[i]);
        if seen.Some? && seen.value.status == Expired {
          store.SetStatus(lapsed[i], S.Expired, None);
          count := count + 1;
        } else if seen.Some? && seen.value.status == Settled {
          store.SetStatus(lapsed[i], S.Settled, None);
        }
      }
      SweepStaysBacked(crypto, s, chain, lapsed[..|lapsed|]);
      return Some(count);
    }

    /** Keeps the payables without a settlement record; None exactly when one of these reads throws. */
    method WithoutRecord(ready: seq<Candidate>, recorded: nat -> bool) returns (candidates: Option<seq<Candidate>>)
      ensures candidates.Some? <==> AllAnswer(recorded, |ready|)
      ensures candidates.Some? ==> candidates.value == Unsettled(ready, store.State())
    {
      var kept := [];
      for i := 0 to |ready|
        invariant kept == Unsettled(ready[..i], store.State()) && AllAnswer(recorded, i)
      {
        if !recorded(i) {
          return None;
        }
        assert ready[..i + 1][..i] == ready[..i];
        var record := store.SettlementOf(ready[i].payableId);
        if record.None? {
          kept := kept + [ready[i]];
        }
      }
      assert ready[..|ready|] == ready;
      return Some(kept);
    }

    /** Settles what is READY, soonest-expiring first, within the figure read at the start. */
    method PayReady(candidates: seq<Candidate>, meets: nat -> Encounter, available: nat, nowSeconds: int)
      returns (r: Result<Progress, CycleError>)
      ensures var cs := ByExpiry(candidates); r == Cycle(cs, Prices(cs), meets, available, nowSeconds, |cs|)
    {
      var cs := ByExpiry(candidates);
      var progress := Progress(available, [], [], []);
      for i := 0 to |cs|
        invariant Cycle(cs, Prices(cs), meets, available, nowSeconds, i) == Success(progress)
      {
        r := PayNext(cs, meets, available, nowSeconds, i, progress);
        if r.Failure? {
          return;
        }
        progress := r.value;
      }
      return Success(progress);
    }

    /** The amount is converted before anything else is asked about the candidate. */
    method PayNext(cs: seq<Candidate>, meets: nat -> Encounter, ghost available: nat, nowSeconds: int, i: nat,
                   was: Progress) returns (r: Result<Progress, CycleError>)
      requires i < |cs| && Cycle(cs, Prices(cs), meets, available, nowSeconds, i) == Success(was)
      ensures r == Cycle(cs, Prices(cs), meets, available, nowSeconds, i + 1)
      ensures r.Failure? ==> r == Cycle(cs, Prices(cs), meets, available, nowSeconds, |cs|)
    {
      var price := DecimalToUnits(cs[i].amount);
      r := Consider(i, cs[i], price, meets(i), was, nowSeconds);
      CycleNext(cs, Prices(cs), meets, available, nowSeconds, i, was, price, r);
    }

    /** Skips what the vault cannot cover or what has lapsed; otherwise attempts it. */
    method Consider(i: nat, c: Candidate, amount: Price, met: Encounter, was: Progress, nowSeconds: int)
      returns (r: Result<Progress, CycleError>)
      ensures r == Considered(was, i, c, amount, met, nowSeconds)
    {
      if amount.Failure? {
        return Failure(BadAmount(amount.error));
      }
      if met.registered.None? {
        return Failure(Unread);
      }
      var units, registered, p := amount.value, met.registered.value, was;
      if !registered && units > p.available {
        return Success(p.(skipped := p.skipped + [i]));
      }
      if c.expiresAt <= nowSeconds * 1000 {
        return Success(p.(skipped := p.skipped + [i]));
      }
      if met.attempt.Refusal? {
        return Success(p.(failed := p.failed + [i]));
      }
      p := p.(settled := p.settled + [i]);
      if met.attempt.PaidBy? && !registered {
        p := p.(available := p.available - units);
      }
      return Success(p);
    }

    /** One cycle after the indexer's turn. There is a report exactly when everything it awaits outside the attempts
        answers and every amount converts. The records are looked up in the store the sweep leaves. */
    method RunOnce(indexerFailed: bool, response: Response, given: Answers, meets: nat -> Encounter, nowSeconds: int)
      returns (report: Option<Report>)
      requires SharedOk(crypto, Shared(chain, store.State())) && Timely(chain, response)
      modifies this`chain, store
      ensures var end := old(SweepResult(store.State(), chain, response, given));
              (report.Some? <==> SweepAnswers(given, response) && ReadsAnswer(given)
                                 && AllPayable(Unsettled(given.ready.value, end.store), meets))
              && (report.Some? ==> Reports(report.value, indexerFailed, end, given, meets, nowSeconds))
              && Advances(end.gate, chain)
      ensures SharedOk(crypto, Shared(chain, store.State()))
    {
      var swept := Sweep(given, response);
      if swept.None? || given.ready.None? {
        return None;
      }
      var candidates := WithoutRecord(given.ready.value, given.recorded);
      if candidates.None? || given.available.None? {
        return None;
      }
      var progress := PayReady(candidates.value, meets, given.available.value, nowSeconds);
      FaultyCandidates(candidates.value, meets, given.available.value, nowSeconds);
      if progress.Failure? {
        return None;
      }
      report := Some(Tell(indexerFailed, swept.value, candidates.value, meets, given.available.value, nowSeconds,
                          progress.value));
    }
  }

  /** The report of a cycle that went through: names in place of positions, a failed indexer first. */
  function Tell(indexerFailed: bool, swept: nat, candidates: seq<Candidate>, meets: nat -> Encounter, available: nat,
                nowSeconds: int, p: Progress): (report: Report)
    requires var cs := ByExpiry(candidates);
             Cycle(cs, Prices(cs), meets, available, nowSeconds, |cs|) == Success(p)
    ensures Tells(report, indexerFailed, Some(swept), candidates, meets, available, nowSeconds)
  {
    var cs := ByExpiry(candidates);
    CyclePartitions(cs, Prices(cs), meets, available, nowSeconds, |cs|);
    CycleFates(cs, Prices(cs), meets, available, nowSeconds, |cs|);
    var failures: seq<Str> := if indexerFailed then [Ascii("(indexer)")] else [];
    Report(indexerFailed, swept, Names(cs, p.settled), Names(cs, p.skipped), failures + Names(cs, p.failed))
  }

  /** Every candidate's amount converts and every stored proof can be read. */
  ghost predicate AllPayable(candidates: seq<Candidate>, meets: nat -> Encounter) {
    (forall c :: c in candidates ==> DecimalToUnits(c.amount).Success?)
    && forall i: nat :: i < |candidates| ==> meets(i).registered.Some?
  }

  /** The names of the candidates at these positions, in this order. */
  ghost predicate Lists(names: seq<Str>, cs: seq<Candidate>, positions: seq<nat>) {
    |names| == |positions|
    && forall i :: 0 <= i < |positions| ==> positions[i] < |cs| && names[i] == cs[positions[i]].payableId
  }

  /** The report of a cycle that went through: its three lists by name, and the sweep's count. */
  ghost predicate Reports(report: Report, indexerFailed: bool, end: SweepEnd, given: Answers, meets: nat -> Encounter,
                          nowSeconds: int)
    requires given.ready.Some? && given.available.Some?
  {
    Tells(report, indexerFailed, end.swept, Unsettled(given.ready.value, end.store), meets, given.available.value,
          nowSeconds)
  }

  ghost predicate Tells(report: Report, indexerFailed: bool, swept: Option<nat>, candidates: seq<Candidate>,
                        meets: nat -> Encounter, available: nat, nowSeconds: int) {
    var cs := ByExpiry(candidates);
    var cycle := Cycle(cs, Prices(cs), meets, available, nowSeconds, |cs|);
    cycle.Success? && Partition(cycle.value, |cs|)
    && Fates(cs, Prices(cs), meets, available, nowSeconds, cycle.value, |cs|)
    && report.indexerFailed == indexerFailed && Some(report.swept) == swept
    && Lists(report.settled, cs, cycle.value.settled) && Lists(report.skipped, cs, cycle.value.skipped)
    && var before := if indexerFailed then 1 else 0;
       |report.failed| >= before && Lists(report.failed[before..], cs, cycle.value.failed)
       && (indexerFailed ==> report.failed[0] == Ascii("(indexer)"))
  }

  lemma {:induction false} AbortIsFinal(cs: seq<Candidate>, prices: seq<Price>, meets: nat -> Encounter,
                                        available: int, nowSeconds: int, i: nat, n: nat)
    requires i <= n <= |cs| == |prices| && Cycle(cs, prices, meets, available, nowSeconds, i).Failure?
    ensures Cycle(cs, prices, meets, available, nowSeconds, n) == Cycle(cs, prices, meets, available, nowSeconds, i)
    decreases n
  {
    if i < n {
      AbortIsFinal(cs, prices, meets, available, nowSeconds, i, n - 1);
    }
  }

  lemma CycleNext(cs: seq<Candidate>, prices: seq<Price>, meets: nat -> Encounter, available: int, nowSeconds: int,
                  i: nat, p: Progress, price: Price, next: Result<Progress, CycleError>)
    requires i < |cs| == |prices| && Cycle(cs, prices, meets, available, nowSeconds, i) == Success(p)
    requires price == prices[i] && next == Considered(p, i, cs[i], price, meets(i), nowSeconds)
    ensures Cycle(cs, prices, meets, available, nowSeconds, i + 1) == next
    ensures next.Failure? ==> Cycle(cs, prices, meets, available, nowSeconds, |cs|) == next
  {
    if next.Failure? {
      AbortIsFinal(cs, prices, meets, available, nowSeconds, i + 1, |cs|);
    }
  }

  /** Sorting neither loses nor adds a bad amount. */
  lemma BadAmounts(candidates: seq<Candidate>)
    ensures var prices := Prices(ByExpiry(candidates));
            (exists i: nat :: i < |prices| && prices[i].Failure?)
            <==> exists c :: c in candidates && DecimalToUnits(c.amount).Failure?
  {
    var cs := ByExpiry(candidates);
    SortMeaning(candidates);
    if i: nat :| i < |cs| && Prices(cs)[i].Failure? {
      assert cs[i] in multiset(cs);
    }
    if c :| c in candidates && DecimalToUnits(c.amount).Failure? {
      assert c in multiset(cs);
      var i: nat :| i < |cs| && cs[i] == c;
      assert Prices(cs)[i].Failure?;
    }
  }

  lemma FaultyCandidates(candidates: seq<Candidate>, meets: nat -> Encounter, available: int, nowSeconds: int)
    ensures var cs := ByExpiry(candidates);
            |cs| == |candidates|
            && (Cycle(cs, Prices(cs), meets, available, nowSeconds, |cs|).Success? <==> AllPayable(candidates, meets))
  {
    var cs := ByExpiry(candidates);
    SortMeaning(candidates);
    assert |multiset(cs)| == |multiset(candidates)|;
    BadAmounts(candidates);
    CycleAborts(cs, Prices(cs), meets, available, nowSeconds, |cs|);
  }

  /** A READY payable without a record whose amount, though a proof may carry it, is more than an i128. */
  ghost predicate TooLarge(c: Candidate, store: S.Store) {
    AmountShape(c.amount) && UnitsOf(Captures(c.amount).value) > I128_MAX && c.payableId !in store.settlements
  }

  lemma UnsettledAre(ready: seq<Candidate>, store: S.Store, c: Candidate)
    ensures c in Unsettled(ready, store) <==> c in ready && c.payableId !in store.settlements
  {
    UnsettledMeaning(ready, store, c);
    assert c in Unsettled(ready, store) <==> c in multiset(Unsettled(ready, store));
    assert c in ready <==> c in multiset(ready);
  }

  /** Amounts are read outside the catch around each attempt. Over payables with proofs and with every stored proof
      readable, a cycle ends early exactly when one without a record is for more than an i128 of units. */
  lemma CycleAbortsExactlyOnABadAmount(ready: seq<Candidate>, store: S.Store, meets: nat -> Encounter,
                                       available: nat, nowSeconds: int)
    requires forall c :: c in ready ==> AmountShape(c.amount)
    ensures var cs := ByExpiry(Unsettled(ready, store));
            Cycle(cs, Prices(cs), meets, available, nowSeconds, |cs|).Failure?
            <==> (exists c :: c in ready && TooLarge(c, store))
                 || exists i: nat :: i < |cs| && meets(i).registered.None?
  {
    var candidates := Unsettled(ready, store);
    FaultyCandidates(candidates, meets, available, nowSeconds);
    forall c | c in candidates
      ensures c in ready && (DecimalToUnits(c.amount).Failure? <==> TooLarge(c, store))
    {
      UnsettledAre(ready, store, c);
      ShapedAmountsConvert(c.amount);
    }
    forall c | c in ready && TooLarge(c, store) ensures c in candidates && DecimalToUnits(c.amount).Failure? {
      UnsettledAre(ready, store, c);
      ShapedAmountsConvert(c.amount);
    }
  }

  /** One payable that a proof can be built for is enough: whoever else is READY, whenever anything expires and
      however much the vault holds, the cycle ends without a report. */
  lemma OneAmountEndsTheCycle(others: seq<Candidate>, name: Str, expiresAt: int, whole: nat, store: S.Store,
                              meets: nat -> Encounter, available: nat, nowSeconds: int) returns (c: Candidate)
    requires whole * UNITS_PER_WHOLE > I128_MAX && name !in store.settlements
    ensures c.payableId == name && c.expiresAt == expiresAt && AmountShape(c.amount)
    ensures var cs := ByExpiry(Unsettled(others + [c], store));
            Cycle(cs, Prices(cs), meets, available, nowSeconds, |cs|).Failure?
  {
    var amount := WholeNumberAbove(whole);
    c := Candidate(name, amount, expiresAt);
    var candidates := Unsettled(others + [c], store);
    UnsettledAre(others + [c], store, c);
    FaultyCandidates(candidates, meets, available, nowSeconds);
    assert !AllPayable(candidates, meets);
  }

  /** One whole cycle: it goes through exactly when every amount converts and every stored proof can be read. Then
      the READY payables without a record are divided among the three lists, the settled ones soonest-expiring
      first, and those newly committed and paid sum to at most the figure read. */
  lemma CycleMeaning(ready: seq<Candidate>, store: S.Store, meets: nat -> Encounter, available: nat, nowSeconds: int)
    ensures var cs := ByExpiry(Unsettled(ready, store));
            var r := Cycle(cs, Prices(cs), meets, available, nowSeconds, |cs|);
            (r.Success? <==> AllPayable(Unsettled(ready, store), meets))
            && (r.Success? ==>
                  Partition(r.value, |cs|)
                  && Fates(cs, Prices(cs), meets, available, nowSeconds, r.value, |cs|)
                  && (forall i, j :: 0 <= i < j < |r.value.settled| ==>
                        cs[r.value.settled[i]].expiresAt <= cs[r.value.settled[j]].expiresAt)
                  && Priced(Prices(cs), r.value.settled)
                  && FreshlyPaid(Prices(cs), meets, r.value.settled) <= available)
    ensures forall c: Candidate ::
              multiset(ByExpiry(Unsettled(ready, store)))[c]
              == if c.payableId in store.settlements then 0 else multiset(ready)[c]
  {
    var unsettled := Unsettled(ready, store);
    var cs := ByExpiry(unsettled);
    SortMeaning(unsettled);
    forall c: Candidate ensures multiset(cs)[c] == if c.payableId in store.settlements then 0 else multiset(ready)[c] {
      UnsettledMeaning(ready, store, c);
    }
    FaultyCandidates(unsettled, meets, available, nowSeconds);
    if AllPayable(unsettled, meets) {
      CyclePartitions(cs, Prices(cs), meets, available, nowSeconds, |cs|);
      CycleFates(cs, Prices(cs), meets, available, nowSeconds, |cs|);
      CycleStaysWithin(cs, Prices(cs), meets, available, nowSeconds, |cs|);
    }
  }
}
