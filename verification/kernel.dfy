/** The batch rules kernel: duplicate detection over a whole batch, and the choice of the primary exception. */
module Kernel {
  import opened Primitives

  datatype Severity = Critical | High | Medium | Low

  function SeverityRank(s: Severity): nat {
    match s
    case Critical => 0
    case High => 1
    case Medium => 2
    case Low => 3
  }

  datatype Reason =
    | DuplicateInvoice | PoAmountMismatch | MissingReceipt | PartialReceipt | VendorWalletChanged | UnattestedWallet
    | BudgetExceeded | ApprovalMissing | ProofExpiredReason | PaymentAlreadySettled | ErpPostingFailed

  /** The severity column of the reason table. */
  function SeverityOf(r: Reason): Severity {
    match r
    case DuplicateInvoice => Critical
    case PoAmountMismatch => High
    case MissingReceipt => Medium
    case PartialReceipt => Medium
    case VendorWalletChanged => Critical
    case UnattestedWallet => Critical
    case BudgetExceeded => High
    case ApprovalMissing => Medium
    case ProofExpiredReason => Medium
    case PaymentAlreadySettled => Critical
    case ErpPostingFailed => High
  }

  /** `details` stands for everything only the single-payable rules read. */
  datatype Payable = Payable(payableId: Str, vendorId: Str, amount: Str, details: nat)

  datatype Context = Context(policyVersion: Str, duplicateDetection: bool, known: set<Str>, settled: set<Str>)

  datatype Verdict = Pass | Fault(reason: Reason)

  type Rule = (Payable, Context) -> Verdict

  function InvoiceFingerprint(p: Payable): Str {
    p.vendorId + [124] + p.amount
  }

  function DuplicateCheck(p: Payable, c: Context): Verdict {
    if !c.duplicateDetection then Pass
    else if InvoiceFingerprint(p) in c.settled then Fault(PaymentAlreadySettled)
    else if InvoiceFingerprint(p) in c.known then Fault(DuplicateInvoice)
    else Pass
  }

  datatype Exception = Exception(payableId: Str, reason: Reason, severity: Severity, policyVersion: Str)

  datatype KernelResult =
    | Ready(payableId: Str, policyVersion: Str)
    | Blocked(payableId: Str, exceptions: seq<Exception>, primary: Exception)

  // ------------------------------------------------------------- one payable

  function ExceptionFor(p: Payable, c: Context, reason: Reason): Exception {
    Exception(p.payableId, reason, SeverityOf(reason), c.policyVersion)
  }

  /** Every rule is run; none stops the others. */
  function Exceptions(rules: seq<Rule>, p: Payable, c: Context): seq<Exception> {
    if rules == [] then []
    else
      var n := |rules| - 1;
      Exceptions(rules[..n], p, c)
      + match rules[n](p, c)
        case Pass => []
        case Fault(reason) => [ExceptionFor(p, c, reason)]
  }

  function InsertBySeverity(e: Exception, es: seq<Exception>): seq<Exception> {
    if es == [] || SeverityRank(es[0].severity) > SeverityRank(e.severity) then [e] + es
    else [es[0]] + InsertBySeverity(e, es[1..])
  }

  /** A stable sort by severity. */
  function BySeverity(es: seq<Exception>): (sorted: seq<Exception>)
    ensures |sorted| == |es|
  {
    if es == [] then []
    else
      var sorted := BySeverity(es[..|es| - 1]);
      InsertLength(es[|es| - 1], sorted);
      InsertBySeverity(es[|es| - 1], sorted)
  }

  lemma {:induction false} InsertLength(e: Exception, es: seq<Exception>)
    ensures |InsertBySeverity(e, es)| == |es| + 1
  {
    if es != [] && SeverityRank(es[0].severity) <= SeverityRank(e.severity) {
      InsertLength(e, es[1..]);
    }
  }

  function Evaluate(rules: seq<Rule>, p: Payable, c: Context): KernelResult {
    var es := Exceptions(rules, p, c);
    if es == [] then Ready(p.payableId, c.policyVersion) else Blocked(p.payableId, es, BySeverity(es)[0])
  }

  method EvaluatePayable(rules: seq<Rule>, p: Payable, c: Context) returns (r: KernelResult)
    ensures r == Evaluate(rules, p, c)
  {
    var exceptions := [];
    for i := 0 to |rules|
      invariant exceptions == Exceptions(rules[..i], p, c)
    {
      assert rules[..i + 1][..i] == rules[..i];
      var result := rules[i](p, c);
      if result.Pass? {
        continue;
      }
      exceptions := exceptions + [ExceptionFor(p, c, result.reason)];
    }
    assert rules[..|rules|] == rules;
    if exceptions == [] {
      return Ready(p.payableId, c.policyVersion);
    }
    return Blocked(p.payableId, exceptions, BySeverity(exceptions)[0]);
  }

  lemma SortedHead(es: seq<Exception>)
    requires |es| > 1
    ensures var n := |es| - 1;
            var before := BySeverity(es[..n]);
            BySeverity(es)[0]
            == if SeverityRank(before[0].severity) > SeverityRank(es[n].severity) then es[n] else before[0]
  {
  }

  lemma PrimaryAppend(es: seq<Exception>, k: nat)
    requires |es| > 1 && k < |es| - 1 && IsPrimary(es[..|es| - 1], k)
    ensures IsPrimary(es, if SeverityRank(es[k].severity) > SeverityRank(es[|es| - 1].severity) then |es| - 1 else k)
  {
    assert forall j :: 0 <= j < |es| - 1 ==> es[..|es| - 1][j] == es[j];
  }

  /** The first of a sorted list is the first of the least severity rank in the unsorted one. */
  lemma {:induction false} FirstIsLeast(es: seq<Exception>)
    requires es != []
    ensures exists k :: 0 <= k < |es| && IsPrimary(es, k) && es[k] == BySeverity(es)[0]
  {
    var n := |es| - 1;
    if n == 0 {
      assert BySeverity(es[..0]) == [];
      assert IsPrimary(es, 0);
    } else {
      FirstIsLeast(es[..n]);
      var k :| 0 <= k < n && IsPrimary(es[..n], k) && es[..n][k] == BySeverity(es[..n])[0];
      SortedHead(es);
      PrimaryAppend(es, k);
    }
  }

  /** Nothing is more severe, and nothing before it is as severe. */
  predicate IsPrimary(es: seq<Exception>, k: nat)
    requires k < |es|
  {
    (forall j :: 0 <= j < |es| ==> SeverityRank(es[k].severity) <= SeverityRank(es[j].severity))
    && (forall j :: 0 <= j < k ==> SeverityRank(es[k].severity) < SeverityRank(es[j].severity))
  }

  /** A blocked payable's primary exception is the least by severity and then by rule order, among its own. */
  lemma PrimaryIsLeastBySeverityThenRuleOrder(rules: seq<Rule>, p: Payable, c: Context)
    requires Evaluate(rules, p, c).Blocked?
    ensures var r := Evaluate(rules, p, c);
            exists k :: 0 <= k < |r.exceptions| && IsPrimary(r.exceptions, k) && r.exceptions[k] == r.primary
  {
    FirstIsLeast(Exceptions(rules, p, c));
  }

  /** The first exception of a severity. */
  predicate IsFirstOf(es: seq<Exception>, severity: Severity, e: Exception) {
    exists k :: 0 <= k < |es| && es[k] == e && e.severity == severity
             && forall j :: 0 <= j < k ==> es[j].severity != severity
  }

  predicate SomeOf(es: seq<Exception>, severity: Severity) {
    exists k :: 0 <= k < |es| && es[k].severity == severity
  }

  /** The primary exception, by name: the first CRITICAL one if there is any, else the first HIGH one, else the first
      MEDIUM one, else the first LOW one. */
  lemma PrimaryIsTheFirstOfTheMostSevere(rules: seq<Rule>, p: Payable, c: Context)
    requires Evaluate(rules, p, c).Blocked?
    ensures var r := Evaluate(rules, p, c);
            r.payableId == p.payableId
            && IsFirstOf(r.exceptions, if SomeOf(r.exceptions, Critical) then Critical
                                       else if SomeOf(r.exceptions, High) then High
                                       else if SomeOf(r.exceptions, Medium) then Medium
                                       else Low, r.primary)
  {
    PrimaryIsLeastBySeverityThenRuleOrder(rules, p, c);
    var es := Evaluate(rules, p, c).exceptions;
    var k :| 0 <= k < |es| && IsPrimary(es, k) && es[k] == Evaluate(rules, p, c).primary;
    forall j | 0 <= j < k ensures es[j].severity != es[k].severity {
    }
    forall s | SomeOf(es, s) ensures SeverityRank(es[k].severity) <= SeverityRank(s) {
      var j :| 0 <= j < |es| && es[j].severity == s;
    }
    assert SomeOf(es, es[k].severity);
  }

  /** Which reasons are of which severity. */
  lemma SeverityTable(r: Reason)
    ensures SeverityOf(r).Critical? <==>
              r.DuplicateInvoice? || r.VendorWalletChanged? || r.UnattestedWallet? || r.PaymentAlreadySettled?
    ensures SeverityOf(r).High? <==> r.PoAmountMismatch? || r.BudgetExceeded? || r.ErpPostingFailed?
    ensures SeverityOf(r).Medium? <==>
              r.MissingReceipt? || r.PartialReceipt? || r.ApprovalMissing? || r.ProofExpiredReason?
  {
  }

  /** How many of the rules before the i-th fail. */
  ghost function FaultsBefore(rules: seq<Rule>, p: Payable, c: Context, i: nat): nat
    requires i <= |rules|
  {
    if i == 0 then 0 else FaultsBefore(rules, p, c, i - 1) + if rules[i - 1](p, c).Fault? then 1 else 0
  }

  lemma {:induction false} FaultsOfPrefix(rules: seq<Rule>, p: Payable, c: Context, n: nat, i: nat)
    requires i <= n <= |rules|
    ensures FaultsBefore(rules[..n], p, c, i) == FaultsBefore(rules, p, c, i)
  {
    if i > 0 {
      FaultsOfPrefix(rules, p, c, n, i - 1);
    }
  }

  /** One exception per failing rule, in rule order, with the rule's reason and that reason's severity. */
  lemma {:induction false} ExceptionsAreTheFaults(rules: seq<Rule>, p: Payable, c: Context, i: nat)
    requires i < |rules|
    ensures |Exceptions(rules, p, c)| == FaultsBefore(rules, p, c, |rules|)
    ensures var k := FaultsBefore(rules, p, c, i);
            rules[i](p, c).Fault? ==>
              k < |Exceptions(rules, p, c)|
              && var e := Exceptions(rules, p, c)[k];
                 e.payableId == p.payableId && e.reason == rules[i](p, c).reason && e.severity == SeverityOf(e.reason)
                 && e.policyVersion == c.policyVersion
    decreases |rules|
  {
    var n := |rules| - 1;
    if n > 0 {
      ExceptionsAreTheFaults(rules[..n], p, c, if i < n then i else 0);
    }
    FaultsOfPrefix(rules, p, c, n, n);
    FaultsOfPrefix(rules, p, c, n, if i < n then i else 0);
  }

  lemma {:induction false} NoExceptionsExactlyWhenAllPass(rules: seq<Rule>, p: Payable, c: Context)
    ensures Exceptions(rules, p, c) == [] <==> forall i :: 0 <= i < |rules| ==> rules[i](p, c).Pass?
  {
    if rules != [] {
      var n := |rules| - 1;
      NoExceptionsExactlyWhenAllPass(rules[..n], p, c);
      assert forall i :: 0 <= i < n ==> rules[..n][i] == rules[i];
    }
  }

  // ---------------------------------------------------------------- the batch

  /** One when this is its fingerprint. */
  function Counted(p: Payable, f: Str): nat {
    if InvoiceFingerprint(p) == f then 1 else 0
  }

  /** How many of the batch carry a fingerprint. */
  function Occurrences(batch: seq<Payable>, f: Str): nat {
    if batch == [] then 0
    else
      var n := |batch| - 1;
      Occurrences(batch[..n], f) + Counted(batch[n], f)
  }

  /** Fingerprints at two or more positions. */
  ghost predicate Collisions(batch: seq<Payable>, found: set<Str>) {
    forall f :: f in found <==> Occurrences(batch, f) >= 2
  }

  function Fingerprints(batch: seq<Payable>): set<Str> {
    set p | p in batch :: InvoiceFingerprint(p)
  }

  lemma {:induction false} SeenExactlyWhenOccurring(batch: seq<Payable>, f: Str)
    ensures f in Fingerprints(batch) <==> Occurrences(batch, f) >= 1
  {
    if batch != [] {
      var n := |batch| - 1;
      SeenExactlyWhenOccurring(batch[..n], f);
      assert batch == batch[..n] + [batch[n]];
      if f in Fingerprints(batch[..n]) {
        var p :| p in batch[..n] && InvoiceFingerprint(p) == f;
        assert p in batch;
      }
    }
  }

  /** The two-set loop. */
  method BatchCollisions(batch: seq<Payable>) returns (collisions: set<Str>)
    ensures Collisions(batch, collisions)
  {
    var seen: set<Str> := {};
    collisions := {};
    for i := 0 to |batch|
      invariant seen == Fingerprints(batch[..i]) && Collisions(batch[..i], collisions)
    {
      assert batch[..i + 1] == batch[..i] + [batch[i]] && batch[..i + 1][..i] == batch[..i];
      var f := InvoiceFingerprint(batch[i]);
      SeenExactlyWhenOccurring(batch[..i], f);
      if f in seen {
        collisions := collisions + {f};
      }
      seen := seen + {f};
    }
    assert batch[..|batch|] == batch;
  }

  ghost function CollisionSet(batch: seq<Payable>): (found: set<Str>)
    ensures Collisions(batch, found)
  {
    var found := set f | f in Fingerprints(batch) && Occurrences(batch, f) >= 2;
    assert forall f :: Occurrences(batch, f) >= 2 ==> f in Fingerprints(batch) by {
      forall f | Occurrences(batch, f) >= 2 ensures f in Fingerprints(batch) {
        SeenExactlyWhenOccurring(batch, f);
      }
    }
    found
  }

  /** The rules of the kernel: duplicate detection first, then the rules that look at one payable alone. */
  function AllRules(others: seq<Rule>): seq<Rule> {
    [(p: Payable, c: Context) => DuplicateCheck(p, c)] + others
  }

  ghost function BatchContext(batch: seq<Payable>, c: Context): Context {
    c.(known := c.known + CollisionSet(batch))
  }

  ghost function BatchResults(others: seq<Rule>, batch: seq<Payable>, c: Context): (results: seq<KernelResult>)
    ensures |results| == |batch|
    ensures forall i :: 0 <= i < |batch| ==> results[i] == Evaluate(AllRules(others), batch[i], BatchContext(batch, c))
  {
    seq(|batch|, i requires 0 <= i < |batch| => Evaluate(AllRules(others), batch[i], BatchContext(batch, c)))
  }

  method EvaluateBatch(others: seq<Rule>, batch: seq<Payable>, c: Context) returns (results: seq<KernelResult>)
    ensures results == BatchResults(others, batch, c)
  {
    var collisions := BatchCollisions(batch);
    CollisionsAreUnique(batch, collisions, CollisionSet(batch));
    var context := c.(known := c.known + collisions);
    results := [];
    for i := 0 to |batch|
      invariant |results| == i
      invariant forall k :: 0 <= k < i ==> results[k] == Evaluate(AllRules(others), batch[k], context)
    {
      var r := EvaluatePayable(AllRules(others), batch[i], context);
      results := results + [r];
    }
  }

  lemma CollisionsAreUnique(batch: seq<Payable>, a: set<Str>, b: set<Str>)
    requires Collisions(batch, a) && Collisions(batch, b)
    ensures a == b
  {
    forall f ensures f in a <==> f in b {
      assert f in a <==> Occurrences(batch, f) >= 2;
    }
  }

  // ----------------------------------------------------------------- theorems

  lemma {:induction false} OccurrencesAt(batch: seq<Payable>, f: Str, i: nat, j: nat)
    requires i < j < |batch| && InvoiceFingerprint(batch[i]) == f && InvoiceFingerprint(batch[j]) == f
    ensures Occurrences(batch, f) >= 2
  {
    var n := |batch| - 1;
    if j < n {
      OccurrencesAt(batch[..n], f, i, j);
    } else {
      assert batch[i] in batch[..n] by {
        assert batch[..n][i] == batch[i];
      }
      SeenExactlyWhenOccurring(batch[..n], f);
    }
  }

  /** With duplicate detection on, READY payables of a batch have different fingerprints, none known before and none
      settled. */
  lemma ReadyMeansUnseen(others: seq<Rule>, batch: seq<Payable>, c: Context, i: nat)
    requires c.duplicateDetection && i < |batch| && BatchResults(others, batch, c)[i].Ready?
    ensures InvoiceFingerprint(batch[i]) !in c.known && InvoiceFingerprint(batch[i]) !in c.settled
    ensures forall j :: 0 <= j < |batch| && j != i ==> InvoiceFingerprint(batch[j]) != InvoiceFingerprint(batch[i])
  {
    var f, context := InvoiceFingerprint(batch[i]), BatchContext(batch, c);
    NoExceptionsExactlyWhenAllPass(AllRules(others), batch[i], context);
    assert AllRules(others)[0](batch[i], context) == DuplicateCheck(batch[i], context);
    assert f !in CollisionSet(batch);
    forall j | 0 <= j < |batch| && j != i ensures InvoiceFingerprint(batch[j]) != f {
      if InvoiceFingerprint(batch[j]) == f {
        OccurrencesAt(batch, f, if i < j then i else j, if i < j then j else i);
      }
    }
  }

  lemma {:induction false} OccursTwice(batch: seq<Payable>, f: Str, i: nat) returns (j: nat)
    requires Occurrences(batch, f) >= 2 && i < |batch|
    ensures j < |batch| && j != i && InvoiceFingerprint(batch[j]) == f
  {
    var n := |batch| - 1;
    if i < n && InvoiceFingerprint(batch[n]) != f {
      j := OccursTwice(batch[..n], f, i);
    } else if i < n {
      j := n;
    } else {
      SeenExactlyWhenOccurring(batch[..n], f);
      var p :| p in batch[..n] && InvoiceFingerprint(p) == f;
      j :| 0 <= j < n && batch[..n][j] == p;
    }
  }

  /** Another payable of the batch has the same fingerprint. */
  ghost predicate Shared(batch: seq<Payable>, i: nat)
    requires i < |batch|
  {
    exists j :: 0 <= j < |batch| && j != i && InvoiceFingerprint(batch[j]) == InvoiceFingerprint(batch[i])
  }

  lemma CollidesExactlyWhenShared(batch: seq<Payable>, i: nat)
    requires i < |batch|
    ensures InvoiceFingerprint(batch[i]) in CollisionSet(batch) <==> Shared(batch, i)
  {
    var f := InvoiceFingerprint(batch[i]);
    assert f in CollisionSet(batch) <==> Occurrences(batch, f) >= 2;
    if Occurrences(batch, f) >= 2 {
      var j := OccursTwice(batch, f, i);
    }
    if j :| 0 <= j < |batch| && j != i && InvoiceFingerprint(batch[j]) == f {
      OccurrencesAt(batch, f, if i < j then i else j, if i < j then j else i);
    }
  }

  /** What duplicate detection says of a payable of the batch: settled before anything else, then known or met twice. */
  lemma DuplicatesExactly(batch: seq<Payable>, c: Context, i: nat)
    requires i < |batch|
    ensures var f, v := InvoiceFingerprint(batch[i]), DuplicateCheck(batch[i], BatchContext(batch, c));
            (v == Fault(PaymentAlreadySettled) <==> c.duplicateDetection && f in c.settled)
            && (v == Fault(DuplicateInvoice)
                <==> c.duplicateDetection && f !in c.settled && (f in c.known || Shared(batch, i)))
            && (v == Pass <==> !c.duplicateDetection || (f !in c.settled && f !in c.known && !Shared(batch, i)))
  {
    CollidesExactlyWhenShared(batch, i);
  }

  /** Exactly when a payable of a batch is READY. */
  lemma ReadyExactly(others: seq<Rule>, batch: seq<Payable>, c: Context, i: nat)
    requires i < |batch|
    ensures var f, r := InvoiceFingerprint(batch[i]), BatchResults(others, batch, c)[i];
            r.Ready? <==>
              (!c.duplicateDetection || (f !in c.settled && f !in c.known && !Shared(batch, i)))
              && forall k :: 0 <= k < |others| ==> others[k](batch[i], BatchContext(batch, c)).Pass?
    ensures var r := BatchResults(others, batch, c)[i];
            r.payableId == batch[i].payableId && (r.Ready? ==> r.policyVersion == c.policyVersion)
  {
    var rules, context := AllRules(others), BatchContext(batch, c);
    NoExceptionsExactlyWhenAllPass(rules, batch[i], context);
    DuplicatesExactly(batch, c, i);
    assert rules[0](batch[i], context) == DuplicateCheck(batch[i], context);
    assert forall k :: 0 <= k < |others| ==> rules[k + 1] == others[k];
    if forall k :: 0 <= k < |rules| ==> rules[k](batch[i], context).Pass? {
      forall k | 0 <= k < |others| ensures others[k](batch[i], context).Pass? {
        assert rules[k + 1](batch[i], context).Pass?;
      }
    }
  }

  lemma RemoveKeepsLast(batch: seq<Payable>, j: nat)
    requires j < |batch| - 1
    ensures var n := |batch| - 1;
            batch[..j] + batch[j + 1..] == (batch[..n][..j] + batch[..n][j + 1..]) + [batch[n]]
  {
  }

  lemma OccurrencesAppend(batch: seq<Payable>, p: Payable, f: Str)
    ensures Occurrences(batch + [p], f) == Occurrences(batch, f) + Counted(p, f)
  {
    assert (batch + [p])[..|batch|] == batch;
  }

  lemma {:induction false} OccurrencesRemove(batch: seq<Payable>, j: nat, f: Str)
    requires j < |batch|
    ensures Occurrences(batch, f) == Occurrences(batch[..j] + batch[j + 1..], f) + Counted(batch[j], f)
  {
    var n := |batch| - 1;
    if j == n {
      assert batch[..j] + batch[j + 1..] == batch[..n];
    } else {
      OccurrencesRemove(batch[..n], j, f);
      assert batch[..n][j] == batch[j];
      RemoveKeepsLast(batch, j);
      OccurrencesAppend(batch[..n][..j] + batch[..n][j + 1..], batch[n], f);
    }
  }

  lemma BagWithout(ys: seq<Payable>, j: nat)
    requires j < |ys|
    ensures multiset(ys[..j] + ys[j + 1..]) == multiset(ys) - multiset{ys[j]}
  {
    assert ys == ys[..j] + [ys[j]] + ys[j + 1..];
  }

  lemma {:induction false} SameBagSameOccurrences(xs: seq<Payable>, ys: seq<Payable>, f: Str)
    requires multiset(xs) == multiset(ys)
    ensures Occurrences(xs, f) == Occurrences(ys, f)
  {
    if xs == [] {
      assert |ys| == |multiset(ys)| == 0;
    } else {
      var n := |xs| - 1;
      assert xs == xs[..n] + [xs[n]];
      assert multiset(xs[..n]) == multiset(xs) - multiset{xs[n]};
      assert xs[n] in multiset(ys);
      var j :| 0 <= j < |ys| && ys[j] == xs[n];
      var rest := ys[..j] + ys[j + 1..];
      BagWithout(ys, j);
      SameBagSameOccurrences(xs[..n], rest, f);
      OccurrencesRemove(ys, j, f);
    }
  }

  /** Permuting the batch permutes the results: each payable's result does not depend on its position. */
  lemma PermutingTheBatchPermutesResults(others: seq<Rule>, batch: seq<Payable>, permuted: seq<Payable>, c: Context,
                                         i: nat, j: nat)
    requires multiset(batch) == multiset(permuted) && i < |batch| && j < |permuted| && batch[i] == permuted[j]
    ensures BatchContext(batch, c) == BatchContext(permuted, c)
    ensures BatchResults(others, batch, c)[i] == BatchResults(others, permuted, c)[j]
  {
    forall f ensures Occurrences(batch, f) == Occurrences(permuted, f) {
      SameBagSameOccurrences(batch, permuted, f);
    }
    forall f ensures f in CollisionSet(batch) <==> f in CollisionSet(permuted) {
      assert Occurrences(batch, f) == Occurrences(permuted, f);
    }
    assert CollisionSet(batch) == CollisionSet(permuted);
  }

  /** A fingerprint names vendor and amount: exactly, as long as amounts hold no bar. */
  lemma FingerprintNamesVendorAndAmount(p: Payable, q: Payable)
    requires 124 !in p.amount && 124 !in q.amount
    ensures InvoiceFingerprint(p) == InvoiceFingerprint(q) <==> p.vendorId == q.vendorId && p.amount == q.amount
  {
    var s, t := InvoiceFingerprint(p), InvoiceFingerprint(q);
    if s == t {
      assert s[|p.vendorId|] == 124 && t[|q.vendorId|] == 124;
      assert forall k :: |p.vendorId| < k < |s| ==> s[k] == p.amount[k - |p.vendorId| - 1];
      assert forall k :: |q.vendorId| < k < |t| ==> t[k] == q.amount[k - |q.vendorId| - 1];
      assert p.vendorId == s[..|p.vendorId|] && q.vendorId == t[..|q.vendorId|];
      assert p.amount == s[|p.vendorId| + 1..] && q.amount == t[|q.vendorId| + 1..];
    }
  }
}
