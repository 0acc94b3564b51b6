/** A run in which a shortened window loses sight of what was just paid. */
module GateExamples {
  import opened Primitives
  import opened Digest
  import opened GateSpec
  import opened GateInvariants
  import opened GateTheorems

  /** An issuer key and what signing with it gives; `bytes` stands in for every address and hash that does not
      matter. */
  datatype Scene = Scene(crypto: Crypto, issuer: Bytes32, sign: Bytes32 -> Octets, bytes: Bytes32)

  /** The key signs whatever its owner wants signed. */
  ghost predicate Works(s: Scene) {
    forall m: Bytes32 :: s.crypto.verifies(s.issuer, m, s.sign(m))
  }

  function Vault(s: Scene): Address {
    Contract(s.bytes)
  }

  function Owner(s: Scene): Address {
    Account(s.bytes)
  }

  /** One issuer; one account that is administrator, executor, treasury and supplier; payables of one unit; a window
      of ten seconds and three units. */
  function Terms(s: Scene): Config {
    Config(Owner(s), [s.issuer], 1, s.bytes, Vault(s), Vault(s), Owner(s), Owner(s), 1, 10, 3, false)
  }

  function Second(s: Scene, now: u64): Env {
    Env(now, 0, [], {Owner(s)}, true)
  }

  function OneUnit(s: Scene): Payable {
    Payable(s.bytes, Owner(s), 1, s.bytes, 10, Ready)
  }

  function Signed(s: Scene, id: Bytes32): seq<IssuerSignature> {
    var fields := RegistrationFields(s.bytes, s.bytes, id, s.bytes, s.bytes, s.bytes, 1, s.bytes, 10);
    [IssuerSignature(s.issuer, s.sign(RegistrationDigest(s.crypto.sha, fields)))]
  }

  ghost predicate Stands(s: Scene, g: Gate, c: Config, payables: map<Bytes32, Payable>, clock: u64) {
    Inv(s.crypto, g) && g.self == Vault(s) && g.config == Some(c) && g.payables == payables && g.clock == clock
  }

  /** Before any payment: three units in the vault, so many of them committed. */
  ghost predicate Unspent(s: Scene, g: Gate, committed: int) {
    Balance(g, Vault(s)) == 3 && g.committed == committed && g.window.None? && g.history.payments == []
  }

  lemma OneMoreStep(crypto: Crypto, trace: seq<Gate>, g: Gate, e: Env, call: Call)
    requires Run(crypto, trace) && InvokeStep(crypto, trace[|trace| - 1], g, e, call)
    ensures Run(crypto, trace + [g]) && Inv(crypto, g)
  {
    var longer := trace + [g];
    forall i: nat | 0 < i < |longer| ensures StepAt(crypto, longer, i) {
      if i < |trace| {
        assert StepAt(crypto, trace, i);
      }
    }
    RunKeepsInv(crypto, longer, |trace|);
  }

  lemma InitializeGoes(s: Scene) returns (trace: seq<Gate>)
    ensures Run(s.crypto, trace)
    ensures Stands(s, trace[|trace| - 1], Terms(s), map[], 1) && Unspent(s, trace[|trace| - 1], 0)
  {
    var start := NewGate(Vault(s));
    var call := CallInitialize(Terms(s), map[Vault(s) := 3]);
    var g := Invoke(s.crypto, start, Second(s, 1), call).gate;
    OneMoreStep(s.crypto, [start], g, Second(s, 1), call);
    trace := [start] + [g];
  }

  lemma SignedIsAccepted(s: Scene, g: Gate, id: Bytes32)
    requires Works(s) && g.self == Vault(s)
    ensures Fields(g, Terms(s), id, OneUnit(s)).Some?
    ensures var digest := RegistrationDigest(s.crypto.sha, Fields(g, Terms(s), id, OneUnit(s)).value);
            CheckSignatures(s.crypto, [s.issuer], 1, digest, Signed(s, id)).Accepted?
  {
    var digest := RegistrationDigest(s.crypto.sha, Fields(g, Terms(s), id, OneUnit(s)).value);
    SignatureCheckMeaning(s.crypto, [s.issuer], 1, digest, Signed(s, id));
  }

  lemma RegisterAnswers(s: Scene, g: Gate, id: Bytes32)
    requires Works(s) && g.self == Vault(s) && g.config == Some(Terms(s)) && g.clock == 1
    requires id !in g.payables && 0 <= g.committed < 3 == Balance(g, Vault(s))
    ensures Register(s.crypto, g, Second(s, 1), id, OneUnit(s), Signed(s, id))
            == Done(AddPayable(g, Second(s, 1), Terms(s), id, OneUnit(s), Signed(s, id)))
  {
    SignedIsAccepted(s, g, id);
    assert RegistrationRefusal(g, Second(s, 1), Terms(s), id, OneUnit(s)).None?;
  }

  lemma RegisterSteps(s: Scene, g: Gate, id: Bytes32) returns (g': Gate)
    requires Works(s) && Sane(g) && g.self == Vault(s) && g.config == Some(Terms(s)) && g.clock == 1
    requires id !in g.payables && 0 <= g.committed < 3 == Balance(g, Vault(s))
    ensures InvokeStep(s.crypto, g, g', Second(s, 1), CallRegister(id, OneUnit(s), Signed(s, id)))
    ensures g' == AddPayable(g, Second(s, 1), Terms(s), id, OneUnit(s), Signed(s, id))
  {
    RegisterAnswers(s, g, id);
    assert g.(clock := 1) == g;
    g' := AddPayable(g, Second(s, 1), Terms(s), id, OneUnit(s), Signed(s, id));
  }

  lemma RegisterGoes(s: Scene, trace: seq<Gate>, payables: map<Bytes32, Payable>, committed: nat, id: Bytes32)
    returns (longer: seq<Gate>)
    requires Works(s) && Run(s.crypto, trace) && id !in payables && committed < 3
    requires Stands(s, trace[|trace| - 1], Terms(s), payables, 1) && Unspent(s, trace[|trace| - 1], committed)
    ensures Run(s.crypto, longer) && Stands(s, longer[|longer| - 1], Terms(s), payables[id := OneUnit(s)], 1)
    ensures Unspent(s, longer[|longer| - 1], committed + 1)
  {
    var g := trace[|trace| - 1];
    InvIsSane(s.crypto, g);
    var g' := RegisterSteps(s, g, id);
    OneMoreStep(s.crypto, trace, g', Second(s, 1), CallRegister(id, OneUnit(s), Signed(s, id)));
    longer := trace + [g'];
  }

  lemma SettleGoes(s: Scene, trace: seq<Gate>, c: Config, payables: map<Bytes32, Payable>, id: Bytes32, was: u64,
                   now: u64)
    returns (longer: seq<Gate>)
    requires Run(s.crypto, trace) && Stands(s, trace[|trace| - 1], c, payables, was) && was <= now <= 10
    requires id in payables && payables[id] == OneUnit(s) && c in {Terms(s), Terms(s).(windowSeconds := 1)}
    requires var window := trace[|trace| - 1].window;
             window.Some? ==> window.value.startedAt <= now && 0 <= window.value.spent < 3
    ensures |longer| == |trace| + 1 && Run(s.crypto, longer)
    ensures var g, g' := trace[|trace| - 1], longer[|longer| - 1];
            Stands(s, g', c, payables[id := OneUnit(s).(status := Settled)], now)
            && |g'.history.payments| == |g.history.payments| + 1
            && g'.history.payments[|g.history.payments|].at == now
            && g'.window == Some(if Reopens(g, now, c) then SpendWindow(now, 1)
                                 else SpendWindow(g.window.value.startedAt, g.window.value.spent + 1))
            && Sane(g.(clock := now)) && Settle(g.(clock := now), Second(s, now), id) == Done(g')
  {
    var g := trace[|trace| - 1];
    var at := g.(clock := now);
    ClockKeepsInv(s.crypto, g, now);
    InvIsSane(s.crypto, g);
    VaultPaysWhatIsReady(s.crypto, at, Second(s, now), id);
    var g' := Settle(at, Second(s, now), id).gate;
    OneMoreStep(s.crypto, trace, g', Second(s, now), CallSettle(id));
    longer := trace + [g'];
  }

  lemma ThreeRegistered(s: Scene, x: Bytes32, y: Bytes32, z: Bytes32) returns (trace: seq<Gate>)
    requires Works(s) && x != y && y != z && x != z
    ensures Run(s.crypto, trace) && Unspent(s, trace[|trace| - 1], 3)
    ensures Stands(s, trace[|trace| - 1], Terms(s), map[x := OneUnit(s), y := OneUnit(s), z := OneUnit(s)], 1)
  {
    trace := InitializeGoes(s);
    trace := RegisterGoes(s, trace, map[], 0, x);
    trace := RegisterGoes(s, trace, map[x := OneUnit(s)], 1, y);
    trace := RegisterGoes(s, trace, map[x := OneUnit(s), y := OneUnit(s)], 2, z);
  }

  lemma CutGoes(s: Scene, trace: seq<Gate>, payables: map<Bytes32, Payable>) returns (longer: seq<Gate>)
    requires Run(s.crypto, trace) && Stands(s, trace[|trace| - 1], Terms(s), payables, 2)
    ensures |longer| == |trace| + 1 && Run(s.crypto, longer)
    ensures var g, g' := trace[|trace| - 1], longer[|longer| - 1];
            Stands(s, g', Terms(s).(windowSeconds := 1), payables, 2)
            && g'.window == g.window && g'.history.payments == g.history.payments
            && Configure(g, Second(s, 2), Limits(1, 1, 3)) == Done(g')
  {
    var g := trace[|trace| - 1];
    InvIsSane(s.crypto, g);
    var g' := Configure(g, Second(s, 2), Limits(1, 1, 3)).gate;
    OneMoreStep(s.crypto, trace, g', Second(s, 2), CallConfigure(Limits(1, 1, 3)));
    longer := trace + [g'];
  }

  lemma CutAndSettle(s: Scene, trace: seq<Gate>, payables: map<Bytes32, Payable>, id: Bytes32)
    returns (longer: seq<Gate>)
    requires Run(s.crypto, trace) && Stands(s, trace[|trace| - 1], Terms(s), payables, 2)
    requires id in payables && payables[id] == OneUnit(s) && trace[|trace| - 1].window == Some(SpendWindow(1, 2))
    requires var payments := trace[|trace| - 1].history.payments;
             payments != [] && payments[|payments| - 1].at == 2
    ensures Run(s.crypto, longer) && !ReadsByClock(longer[|longer| - 1])
  {
    var before := trace[|trace| - 1];
    var cutting := CutGoes(s, trace, payables);
    var cut := cutting[|cutting| - 1];
    longer := SettleGoes(s, cutting, Terms(s).(windowSeconds := 1), payables, id, 2, 2);
    InvIsSane(s.crypto, before);
    assert cut.(clock := 2) == cut;
    ShorterWindowForgets(s.crypto, before, cut, Second(s, 2), 1, 1, 3, id);
  }

  /** Three payables, three payments: one at second 1, one at second 2 and, once the owner has cut the window to one
      second, a third still at second 2. The figure it leaves is not what was settled since its start. */
  lemma SomeRunForgets(s: Scene, x: Bytes32, y: Bytes32, z: Bytes32) returns (trace: seq<Gate>)
    requires Works(s) && x != y && y != z && x != z
    ensures Run(s.crypto, trace) && !ReadsByClock(trace[|trace| - 1])
  {
    var one, paid := OneUnit(s), OneUnit(s).(status := Settled);
    trace := ThreeRegistered(s, x, y, z);
    trace := SettleGoes(s, trace, Terms(s), map[x := one, y := one, z := one], x, 1, 1);
    trace := SettleGoes(s, trace, Terms(s), map[x := one, y := one, z := one][x := paid], y, 1, 2);
    trace := CutAndSettle(s, trace, map[x := one, y := one, z := one][x := paid][y := paid], z);
  }
}
