/** From a signed proof to the gate: what the backend verified is what the contract verifies. */
module EndToEnd {
  import opened Primitives
  import opened Text
  import opened StrKey
  import opened RegistrationDigest
  import opened Issuing
  import D = Digest
  import G = GateSpec
  import I = GateInvariants
  import GM = GateMeaning
  import IM = IssuingMeaning
  import K = Kernel
  import opened Amount
  import opened Jcs
  import P = Protocol
  import PS = ProtocolSafety

  /** The deployed gate is the one the manifest names. */
  ghost predicate Mirrors(d: Deployment, g: G.Gate, os: Platform) {
    g.config.Some?
    && StrKeyPayload(d.contractId, VERSION_CONTRACT).Success?
      && StrKeyPayload(d.assetContractId, VERSION_CONTRACT).Success?
    && g.self == G.Contract(StrKeyPayload(d.contractId, VERSION_CONTRACT).value)
    && g.config.value.asset == G.Contract(StrKeyPayload(d.assetContractId, VERSION_CONTRACT).value)
    && g.config.value.networkId == os.sha(Utf8(d.networkPassphrase))
  }

  /** The arguments `register_payable` is called with. */
  function ArgumentsOf(r: Prepared): G.Payable
    requires StrKeyPayload(r.recipient, VERSION_ACCOUNT).Success? && 0 < r.amountUnits <= I128_MAX
             && 0 <= r.expiry <= U64_MAX
  {
    G.Payable(HashBytes(r.proofHash), G.Account(StrKeyPayload(r.recipient, VERSION_ACCOUNT).value), r.amountUnits,
              HashBytes(r.policyHash), r.expiry, G.Ready)
  }

  lemma InputIsTyped(input: RegistrationInput, sha: Octets -> Bytes32)
    requires RegistrationBytes(input, sha).Success?
    ensures StrKeyPayload(input.recipient, VERSION_ACCOUNT).Success? && 0 < input.amountUnits <= I128_MAX
            && 0 <= input.expiry.n <= U64_MAX
  {
    var parts := RegistrationParts(input, sha);
    assert parts[5].Success? && parts[7].Success? && parts[9].Success?;
  }

  /** The prepared registration, field by field, in terms of what was digested. */
  lemma PreparedFromInput(p: Proof, d: Deployment, os: Platform, r: Prepared)
    requires PrepareRegistration(p, d, os) == Success(r)
    ensures var input := DigestInput(p, d, os).value;
            RegistrationBytes(input, os.sha).Success? && r.amountUnits == input.amountUnits
              && r.expiry == input.expiry.n
            && r.recipient == input.recipient && r.proofHash == input.proofHash
            && input.networkPassphrase == d.networkPassphrase && input.contractId == d.contractId
            && input.assetContractId == d.assetContractId
            && HashBytes(r.payableIdHash) == os.sha(Utf8(p.payableId)) && input.payableId == p.payableId == r.payableId
            && HashBytes(r.policyHash) == os.sha(Utf8(input.policyVersion))
            && DigestBytes(r) == os.sha(RegistrationBytes(input, os.sha).value)
  {
    PreparedTextsAreWellFormed(p, d, os);
    HashBytesOfHexText(os.sha(Utf8(p.payableId)));
    HashBytesOfHexText(os.sha(Utf8(p.policyVersion)));
    PreparedBytes(p, d, os);
  }

  lemma PreparedIsTyped(p: Proof, d: Deployment, os: Platform, r: Prepared)
    requires PrepareRegistration(p, d, os) == Success(r)
    ensures StrKeyPayload(r.recipient, VERSION_ACCOUNT).Success? && 0 < r.amountUnits <= I128_MAX
            && 0 <= r.expiry <= U64_MAX
    ensures HashBytes(r.payableIdHash) == os.sha(Utf8(p.payableId))
  {
    PreparedFromInput(p, d, os, r);
    InputIsTyped(DigestInput(p, d, os).value, os.sha);
  }

  lemma FieldsFromParts(g: G.Gate, c: G.Config, id: Bytes32, p: G.Payable, f: D.RegistrationFields)
    requires G.AddressBytes(g.self) == Some(f.contractId) && G.AddressBytes(c.asset) == Some(f.assetContractId)
    requires c.networkId == f.networkId && id == f.payableIdHash && 0 < f.amount <= I128_MAX && 0 <= f.expiry <= U64_MAX
    requires p == G.Payable(f.proofHash, G.Account(f.recipient), f.amount, f.policyHash, f.expiry, G.Ready)
    ensures G.Fields(g, c, id, p) == Some(f)
  {
  }

  /** The call's arguments are the digested fields, each under its own name. */
  lemma ArgumentsAreTheFields(p: Proof, d: Deployment, os: Platform, r: Prepared)
    requires PrepareRegistration(p, d, os) == Success(r)
    requires StrKeyPayload(r.recipient, VERSION_ACCOUNT).Success? && 0 < r.amountUnits <= I128_MAX
             && 0 <= r.expiry <= U64_MAX
    ensures var input := DigestInput(p, d, os).value;
            RegistrationBytes(input, os.sha).Success?
            && var f := FieldsOf(input, os.sha);
               HashBytes(r.payableIdHash) == f.payableIdHash
               && ArgumentsOf(r)
                  == G.Payable(f.proofHash, G.Account(f.recipient), f.amount, f.policyHash, f.expiry, G.Ready)
               && DigestBytes(r) == os.sha(RegistrationBytes(input, os.sha).value)
  {
    PreparedFromInput(p, d, os, r);
  }

  /** So are the ones the contract takes from its own configuration. */
  lemma MirroredFields(p: Proof, d: Deployment, os: Platform, g: G.Gate)
    requires DigestInput(p, d, os).Success? && RegistrationBytes(DigestInput(p, d, os).value, os.sha).Success?
    requires Mirrors(d, g, os)
    ensures var f := FieldsOf(DigestInput(p, d, os).value, os.sha);
            G.AddressBytes(g.self) == Some(f.contractId)
            && G.AddressBytes(g.config.value.asset) == Some(f.assetContractId)
            && g.config.value.networkId == f.networkId
  {
    PreparedTextsAreWellFormed(p, d, os);
  }

  /** The fields the contract rebuilds from typed arguments and its own configuration are the ones that were
      signed, under the id that is the hash of the payable's name. */
  lemma ContractRebuildsTheSignedFields(p: Proof, d: Deployment, os: Platform, r: Prepared, g: G.Gate)
    requires PrepareRegistration(p, d, os) == Success(r) && Mirrors(d, g, os)
    ensures StrKeyPayload(r.recipient, VERSION_ACCOUNT).Success? && 0 < r.amountUnits <= I128_MAX
            && 0 <= r.expiry <= U64_MAX
    ensures HashBytes(r.payableIdHash) == os.sha(Utf8(p.payableId))
    ensures var fields := G.Fields(g, g.config.value, HashBytes(r.payableIdHash), ArgumentsOf(r));
            fields.Some? && DigestBytes(r) == D.RegistrationDigest(os.sha, fields.value)
  {
    var input := DigestInput(p, d, os).value;
    PreparedIsTyped(p, d, os, r);
    ArgumentsAreTheFields(p, d, os, r);
    MirroredFields(p, d, os, g);
    RegistrationBytesAgree(input, os.sha);
    FieldsFromParts(g, g.config.value, HashBytes(r.payableIdHash), ArgumentsOf(r), FieldsOf(input, os.sha));
  }

  /** What registering comes to once the signatures are beyond doubt. */
  function WithGoodSignatures(g: G.Gate, e: G.Env, id: Bytes32, p: G.Payable,
                              signatures: seq<G.IssuerSignature>): G.Outcome
    requires g.config.Some? && p.status.Ready?
  {
    match G.RegistrationRefusal(g, e, g.config.value, id, p)
    case Some(error) => G.Refused(error)
    case None =>
      if g.committed + p.amount > I128_MAX || g.committed + p.amount < -I128_MAX - 1 then G.Trapped
      else G.Done(G.AddPayable(g, e, g.config.value, id, p, signatures))
  }

  lemma GoodSignaturesRegister(crypto: G.Crypto, g: G.Gate, e: G.Env, id: Bytes32, p: G.Payable,
                               signatures: seq<G.IssuerSignature>)
    requires g.config.Some? && p.status.Ready? && G.Fields(g, g.config.value, id, p).Some?
    requires G.CheckSignatures(crypto, g.config.value.issuers, g.config.value.threshold,
                               D.RegistrationDigest(crypto.sha, G.Fields(g, g.config.value, id, p).value),
                                 signatures).Accepted?
    ensures G.Register(crypto, g, e, id, p, signatures) == WithGoodSignatures(g, e, id, p, signatures)
  {
  }

  lemma PreparedProofsRegister(p: Proof, d: Deployment, os: Platform, r: Prepared, crypto: G.Crypto, g: G.Gate,
                               e: G.Env, signature: G.IssuerSignature)
    requires crypto.sha == os.sha && PrepareRegistration(p, d, os) == Success(r) && Mirrors(d, g, os)
    requires crypto.verifies(signature.issuer, DigestBytes(r), signature.signature)
    requires signature.issuer in g.config.value.issuers && g.config.value.threshold == 1
    ensures StrKeyPayload(r.recipient, VERSION_ACCOUNT).Success? && 0 < r.amountUnits <= I128_MAX
            && 0 <= r.expiry <= U64_MAX
    ensures G.Register(crypto, g, e, HashBytes(r.payableIdHash), ArgumentsOf(r), [signature])
            == WithGoodSignatures(g, e, HashBytes(r.payableIdHash), ArgumentsOf(r), [signature])
  {
    ContractRebuildsTheSignedFields(p, d, os, r, g);
    OneSignatureSuffices(crypto, g.config.value.issuers, DigestBytes(r), signature);
    GoodSignaturesRegister(crypto, g, e, HashBytes(r.payableIdHash), ArgumentsOf(r), [signature]);
  }

  lemma VerifiedIsPrepared(s: SignedProof, d: Deployment, os: Platform, verifies: Verifies, key: Bytes32)
    requires VerifySignedProof(s, d, os, verifies).Success?
             && StrKeyPayload(s.issuerPublicKey, VERSION_ACCOUNT) == Success(key)
    ensures PrepareRegistration(s.proof, d, os) == VerifySignedProof(s, d, os, verifies)
    ensures verifies(key, DigestBytes(VerifySignedProof(s, d, os, verifies).value), s.issuerSignature)
  {
  }

  /** An envelope the backend verified, under a key the gate lists with threshold one: the signature check passes
      on-chain too, so nothing but the gate's own state can refuse the registration. */
  lemma VerifiedProofsRegister(s: SignedProof, d: Deployment, os: Platform, crypto: G.Crypto, g: G.Gate, e: G.Env,
                               key: Bytes32, r: Prepared)
    requires crypto.sha == os.sha && VerifySignedProof(s, d, os, crypto.verifies) == Success(r) && Mirrors(d, g, os)
    requires StrKeyPayload(s.issuerPublicKey, VERSION_ACCOUNT) == Success(key)
    requires key in g.config.value.issuers && g.config.value.threshold == 1
    ensures StrKeyPayload(r.recipient, VERSION_ACCOUNT).Success? && 0 < r.amountUnits <= I128_MAX
            && 0 <= r.expiry <= U64_MAX
    ensures var signatures := [G.IssuerSignature(key, s.issuerSignature)];
            G.Register(crypto, g, e, HashBytes(r.payableIdHash), ArgumentsOf(r), signatures)
            == WithGoodSignatures(g, e, HashBytes(r.payableIdHash), ArgumentsOf(r), signatures)
  {
    VerifiedIsPrepared(s, d, os, crypto.verifies, key);
    PreparedProofsRegister(s.proof, d, os, r, crypto, g, e, G.IssuerSignature(key, s.issuerSignature));
  }

  lemma OneSignatureSuffices(crypto: G.Crypto, issuers: seq<Bytes32>, digest: Bytes32, s: G.IssuerSignature)
    requires s.issuer in issuers && crypto.verifies(s.issuer, digest, s.signature)
    ensures G.CheckSignatures(crypto, issuers, 1, digest, [s]).Accepted?
  {
    I.SignatureCheckMeaning(crypto, issuers, 1, digest, [s]);
  }

  /** What an adapter run is started with, once `#verify` has passed. */
  function OrderFor(s: SignedProof, r: Prepared, key: Bytes32, invoiceId: Str, poId: Str, fingerprint: Str): P.Order
    requires StrKeyPayload(r.recipient, VERSION_ACCOUNT).Success? && 0 < r.amountUnits <= I128_MAX
             && 0 <= r.expiry <= U64_MAX
  {
    P.Order(r.payableId, HashBytes(r.payableIdHash), ArgumentsOf(r), [G.IssuerSignature(key, s.issuerSignature)],
            s.proof.vendorId, s.proof.amount, UnitsToDecimalText(r.amountUnits, 2).value, s.proof.asset, s.contractId,
            invoiceId, poId, fingerprint)
  }

  /** Every field of the order is the proof's, the envelope's or the context's of that name. */
  ghost predicate OrdersTheProof(o: P.Order, s: SignedProof, os: Platform, key: Bytes32, invoiceId: Str, poId: Str,
                                 fingerprint: Str) {
    o.payableId == s.proof.payableId && o.idHash == os.sha(Utf8(s.proof.payableId))
    && StrKeyPayload(s.proof.vendorWallet, 48).Success?
    && o.terms.recipient == G.Account(StrKeyPayload(s.proof.vendorWallet, 48).value)
    && DecimalToUnits(s.proof.amount) == Success(o.terms.amount as int)
    && os.secondsOf(s.proof.expiresAt) == Some(o.terms.expiry as int)
    && o.terms.policyHash == os.sha(Utf8(s.proof.policyVersion)) && o.terms.status == G.Ready
    && ProofHash(ProofJson(s.proof), os.sha).Success?
    && o.terms.proofHash == HashBytes(ProofHash(ProofJson(s.proof), os.sha).value)
    && o.signatures == [G.IssuerSignature(key, s.issuerSignature)]
    && o.vendorId == s.proof.vendorId && o.amount == s.proof.amount && o.asset == s.proof.asset
    && o.contractId == s.contractId && o.invoiceId == invoiceId && o.poId == poId && o.fingerprint == fingerprint
    && UnitsToDecimalText(o.terms.amount, 2) == Success(o.unitsText)
  }

  /** Every run on a verified proof starts with an order that tells the proof, under the hash of the proof's name. */
  lemma VerifiedProofsMakeOrders(s: SignedProof, d: Deployment, os: Platform, crypto: G.Crypto, key: Bytes32,
                                 invoiceId: Str, poId: Str, fingerprint: Str, r: Prepared)
    requires crypto.sha == os.sha && VerifySignedProof(s, d, os, crypto.verifies) == Success(r)
    ensures StrKeyPayload(r.recipient, VERSION_ACCOUNT).Success? && 0 < r.amountUnits <= I128_MAX
            && 0 <= r.expiry <= U64_MAX
    ensures var o := OrderFor(s, r, key, invoiceId, poId, fingerprint);
            PS.OrderOk(crypto, o) && OrdersTheProof(o, s, os, key, invoiceId, poId, fingerprint)
  {
    VerifiedWas(s, d, os, crypto.verifies, r);
    PreparedIsTyped(s.proof, d, os, r);
    IM.PreparedTells(s.proof, d, os);
    WalletIsKey(s.proof, d, os);
    OrderOfPrepared(s, d, os, key, invoiceId, poId, fingerprint, r);
  }

  lemma VerifiedWas(s: SignedProof, d: Deployment, os: Platform, verifies: Verifies, r: Prepared)
    requires VerifySignedProof(s, d, os, verifies) == Success(r)
    ensures PrepareRegistration(s.proof, d, os) == Success(r)
  {
  }

  lemma WalletIsKey(p: Proof, d: Deployment, os: Platform)
    requires PrepareRegistration(p, d, os).Success?
    ensures StrKeyPayload(p.vendorWallet, VERSION_ACCOUNT).Success?
  {
  }

  lemma OrderOfPrepared(s: SignedProof, d: Deployment, os: Platform, key: Bytes32, invoiceId: Str, poId: Str,
                        fingerprint: Str, r: Prepared)
    requires IM.Prepares(s.proof, d, os, r) && StrKeyPayload(s.proof.vendorWallet, VERSION_ACCOUNT).Success?
    requires StrKeyPayload(r.recipient, VERSION_ACCOUNT).Success? && 0 < r.amountUnits <= I128_MAX
             && 0 <= r.expiry <= U64_MAX
    ensures OrdersTheProof(OrderFor(s, r, key, invoiceId, poId, fingerprint), s, os, key, invoiceId, poId, fingerprint)
  {
  }

  // ----------------------------------------- revoking and attesting, both ends

  /** A revocation the backend signed for this gate is over the digest the contract rebuilds, when it names the
      payable and the proof hash registered under it. */
  lemma RevocationsAgree(input: RevocationInput, d: Deployment, os: Platform, crypto: G.Crypto, g: G.Gate,
                         reason: Octets)
    requires crypto.sha == os.sha && Mirrors(d, g, os) && RevocationBytes(input, os.sha).Success?
    requires input.networkPassphrase == d.networkPassphrase && input.contractId == d.contractId
    requires os.sha(Utf8(input.payableId)) in g.payables && reason == Utf8(input.reasonCode)
    requires IsHash(input.proofHash)
             && g.payables[os.sha(Utf8(input.payableId))].proofHash == HashBytes(input.proofHash)
    ensures os.sha(RevocationBytes(input, os.sha).value)
            == GM.ReasonDigest(crypto, g, g.config.value, os.sha(Utf8(input.payableId)), reason)
  {
    RevocationBytesAgree(input, os.sha);
  }

  function PhaseOf(phase: Phase): G.Phase {
    match phase
    case Blocked => G.BlockedPhase
    case Resolved => G.ResolvedPhase
    case Reconciled => G.ReconciledPhase
  }

  /** The same for an attestation. */
  lemma AttestationsAgree(input: AttestationInput, d: Deployment, os: Platform, crypto: G.Crypto, g: G.Gate,
                          reason: Octets)
    requires crypto.sha == os.sha && Mirrors(d, g, os) && AttestationBytes(input, os.sha).Success?
    requires input.networkPassphrase == d.networkPassphrase && input.contractId == d.contractId
    requires reason == Utf8(input.reasonCode)
    ensures 0 <= input.sequence.n <= U64_MAX
    ensures os.sha(AttestationBytes(input, os.sha).value)
            == GM.StatementDigest(crypto, g, g.config.value, os.sha(Utf8(input.payableId)), reason,
                                  PhaseOf(input.phase),
                                  input.sequence.n)
  {
    AttestationBytesAgree(input, os.sha);
    assert AttestationParts(input, os.sha)[6].Success?;
  }

  // ------------------------------------------------- what the kernel looks for

  /** The fingerprint the indexer notes for a paid proof is the one the kernel compares with exactly when the invoice's
      amount has two or more fraction digits and no spare zero past the second: "5000.00", not "5000" or "5000.5". */
  lemma FingerprintsMeetExactly(o: P.Order, p: K.Payable)
    requires o.vendorId == p.vendorId && o.amount == p.amount
    requires DecimalToUnits(o.amount) == Success(o.terms.amount as int)
    requires UnitsToDecimalText(o.terms.amount, 2) == Success(o.unitsText)
    ensures P.VendorFingerprint(P.ProofFor(o)) == K.InvoiceFingerprint(p)
            <==> |Captures(p.amount).value.fraction| >= 2 && NoSpareZero(Captures(p.amount).value.fraction, 2)
  {
    TextRoundTripsExactlyWhenTight(p.amount);
    assert Ascii("|") == [124];
    var x, y := P.VendorFingerprint(P.ProofFor(o)), K.InvoiceFingerprint(p);
    assert x == o.vendorId + [124] + o.unitsText;
    if x == y {
      assert o.unitsText == x[|o.vendorId| + 1..] && p.amount == y[|o.vendorId| + 1..];
    }
  }
}
