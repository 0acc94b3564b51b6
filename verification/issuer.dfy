/** The proof issuer: what it signs, and what a signature it made can be taken for. */
module Issuing {
  import opened Primitives
  import opened Text
  import opened Numerals
  import opened Amount
  import opened StrKey
  import D = Digest
  import opened RegistrationDigest
  import opened Jcs

  /** A Proof-of-Payable, version 1.1; its status is always READY. */
  datatype Proof = Proof(
    payableId: Str, invoiceHash: Str, poHash: Str, receiptHash: Str, vendorId: Str, vendorWallet: Str,
    walletAttestationVersion: int, amount: Str, asset: Str, policyVersion: Str, approvalsHash: Str, costCenter: Str,
    expiresAt: Str)

  datatype Deployment = Deployment(networkPassphrase: Str, contractId: Str, assetCode: Str, assetContractId: Str)

  /** SHA-256, and the calendar: seconds of an ISO instant, or None when `Date.parse` finds none. */
  datatype Platform = Platform(sha: Octets -> Bytes32, secondsOf: Str -> Option<int>)

  /** 64 lowercase hexadecimal characters. */
  type HexHash = h: Str | IsHash(h) ghost witness HexText(seq(32, _ => 0))

  datatype Prepared = Prepared(
    payableId: Str, payableIdHash: HexHash, proofHash: HexHash, recipient: Str, amountUnits: int, policyHash: HexHash,
    expiry: int, registrationDigest: HexHash)

  datatype IssuingError =
    | BadSchema
    | BadWallet(cause: StrKeyError)
    | OtherAsset
    | BadAmount(amount: AmountError)
    | BadInstant
    | BadJson(json: JcsError)
    | BadDigest(digest: DigestError)
    | BadEnvelope
    | OtherGate
    | OtherNetwork
    | AlteredProof
    | BadIssuerKey(key: StrKeyError)
    | BadSignature

  // ------------------------------------------------------------------- schema

  predicate Base32Char(c: CodeUnit) {
    65 <= c <= 90 || 50 <= c <= 55
  }

  /** One letter and 55 base32 characters: shape only, no checksum. */
  predicate KeyShape(s: Str, letter: CodeUnit) {
    |s| == 56 && s[0] == letter && forall i :: 0 <= i < |s| ==> Base32Char(s[i])
  }

  /** `YYYY-MM-DDTHH:mm:ssZ`. */
  predicate InstantShape(s: Str) {
    |s| == 20
    && forall i :: 0 <= i < 20 ==>
         if i == 4 || i == 7 then s[i] == 45
         else if i == 10 then s[i] == 84
         else if i == 13 || i == 16 then s[i] == 58
         else if i == 19 then s[i] == 90
         else IsDigit(s[i])
  }

  predicate Schema(p: Proof) {
    p.payableId != [] && IsHash(p.invoiceHash) && IsHash(p.poHash) && IsHash(p.receiptHash) && p.vendorId != []
    && KeyShape(p.vendorWallet, 71) && p.walletAttestationVersion > 0 && AmountShape(p.amount) && p.asset != []
    && p.policyVersion != [] && IsHash(p.approvalsHash) && p.costCenter != [] && InstantShape(p.expiresAt)
  }

  const PROOF_KEYS: seq<string> :=
    ["payable_id", "invoice_hash", "po_hash", "receipt_hash", "vendor_id", "vendor_wallet",
     "wallet_attestation_version",
     "amount", "asset", "policy_version", "approvals_hash", "cost_center", "expires_at", "status"]

  function ProofValues(p: Proof): seq<Json> {
    [Words(p.payableId), Words(p.invoiceHash), Words(p.poHash), Words(p.receiptHash), Words(p.vendorId),
     Words(p.vendorWallet),
     Integer(p.walletAttestationVersion), Words(p.amount), Words(p.asset), Words(p.policyVersion),
       Words(p.approvalsHash),
     Words(p.costCenter), Words(p.expiresAt), Words(Ascii("READY"))]
  }

  /** An object with these keys, in this order. */
  function MembersOf(keys: seq<string>, values: seq<Json>): Members
    requires |keys| == |values|
  {
    if keys == [] then NoMembers else Member(Ascii(keys[0]), values[0], MembersOf(keys[1..], values[1..]))
  }

  /** The object that is canonicalized and hashed. */
  function ProofJson(p: Proof): Json {
    Object(MembersOf(PROOF_KEYS, ProofValues(p)))
  }

  // -------------------------------------------------------------- preparation

  function InputOf(p: Proof, d: Deployment, proofHash: Str, units: int, expiry: int): RegistrationInput {
    RegistrationInput(d.networkPassphrase, d.contractId, p.payableId, proofHash, p.vendorWallet, d.assetContractId,
                      units,
                      p.policyVersion, Number(expiry))
  }

  /** What the digest is computed from, or the first conversion that fails. */
  function DigestInput(p: Proof, d: Deployment, os: Platform): (r: Result<RegistrationInput, IssuingError>)
    ensures r.Success? ==> IsHash(r.value.proofHash)
  {
    if !Schema(p) then Failure(BadSchema)
    else match StrKeyPayload(p.vendorWallet, VERSION_ACCOUNT)
      case Failure(e) => Failure(BadWallet(e))
      case Success(_) =>
        if p.asset != d.assetCode then Failure(OtherAsset)
        else match DecimalToUnits(p.amount)
          case Failure(e) => Failure(BadAmount(e))
          case Success(units) =>
            match os.secondsOf(p.expiresAt)
            case None => Failure(BadInstant)
            case Some(expiry) =>
              match ProofHash(ProofJson(p), os.sha)
              case Failure(e) => Failure(BadJson(e))
              case Success(hash) => Success(InputOf(p, d, hash, units, expiry))
  }

  /** Every conversion from the proof's texts to the contract's arguments, in the order they can fail. */
  function PrepareRegistration(p: Proof, d: Deployment, os: Platform): Result<Prepared, IssuingError> {
    match DigestInput(p, d, os)
    case Failure(e) => Failure(e)
    case Success(input) =>
      match RegistrationBytes(input, os.sha)
      case Failure(e) => Failure(BadDigest(e))
      case Success(bytes) =>
        Success(Prepared(p.payableId, HexText(os.sha(Utf8(p.payableId))), input.proofHash, p.vendorWallet,
                         input.amountUnits,
                         HexText(os.sha(Utf8(p.policyVersion))), input.expiry.n, HexText(os.sha(bytes))))
  }

  // -------------------------------------------------------- signing, verifying

  /** An Ed25519 key pair: the public half, and what signing with the private half gives. */
  datatype Issuer = Issuer(publicKey: Bytes32, sign: Bytes32 -> Octets)

  type Verifies = (Bytes32, Bytes32, Octets) -> bool

  datatype SignedProof = SignedProof(
    proof: Proof, proofHash: Str, issuerPublicKey: Str, issuerSignature: Octets, networkPassphrase: Str,
      contractId: Str)

  predicate EnvelopeShape(s: SignedProof) {
    Schema(s.proof) && IsHash(s.proofHash) && KeyShape(s.issuerPublicKey, 71) && |s.issuerSignature| == 64
    && s.networkPassphrase != [] && KeyShape(s.contractId, 67)
  }

  /** The 32 bytes behind the hexadecimal digest. */
  function DigestBytes(prepared: Prepared): Bytes32 {
    HashBytes(prepared.registrationDigest)
  }

  function Sign(issuer: Issuer, p: Proof, d: Deployment, os: Platform): Result<(SignedProof, Prepared), IssuingError> {
    match PrepareRegistration(p, d, os)
    case Failure(e) => Failure(e)
    case Success(prepared) =>
      var signed := SignedProof(p, prepared.proofHash, StrKeyText(issuer.publicKey, VERSION_ACCOUNT).value,
                                issuer.sign(DigestBytes(prepared)), d.networkPassphrase, d.contractId);
      if EnvelopeShape(signed) then Success((signed, prepared)) else Failure(BadEnvelope)
  }

  function VerifySignedProof(s: SignedProof, d: Deployment, os: Platform,
                             verifies: Verifies): Result<Prepared, IssuingError> {
    if s.contractId != d.contractId then Failure(OtherGate)
    else if s.networkPassphrase != d.networkPassphrase then Failure(OtherNetwork)
    else match PrepareRegistration(s.proof, d, os)
      case Failure(e) => Failure(e)
      case Success(prepared) =>
        if prepared.proofHash != s.proofHash then Failure(AlteredProof)
        else match StrKeyPayload(s.issuerPublicKey, VERSION_ACCOUNT)
          case Failure(e) => Failure(BadIssuerKey(e))
          case Success(key) =>
            if verifies(key, DigestBytes(prepared), s.issuerSignature) then Success(prepared) else Failure(BadSignature)
  }

  // ----------------------------------------------------------------- theorems

  /** Ed25519 accepts what the matching private key signed. */
  ghost predicate Matching(issuer: Issuer, verifies: Verifies) {
    forall m: Bytes32 :: verifies(issuer.publicKey, m, issuer.sign(m))
  }

  /** Whatever an issuer signs for a deployment verifies for that deployment, and yields exactly what was prepared. */
  lemma VerifyingWhatWasSigned(issuer: Issuer, p: Proof, d: Deployment, os: Platform, verifies: Verifies)
    requires Matching(issuer, verifies) && Sign(issuer, p, d, os).Success?
    ensures VerifySignedProof(Sign(issuer, p, d, os).value.0, d, os, verifies) == PrepareRegistration(p, d, os)
    ensures PrepareRegistration(p, d, os) == Success(Sign(issuer, p, d, os).value.1)
  {
    DecodeEncode(issuer.publicKey, VERSION_ACCOUNT);
  }

  /** Everything an honest issuer's key ever signed. */
  datatype Statement =
    | Registration(proof: Proof, deployment: Deployment)
    | Revocation(revocation: RevocationInput)
    | Attestation(attestation: AttestationInput)

  /** The bytes it hashed, when it got that far. */
  function Bytes(s: Statement, os: Platform): Result<Octets, DigestError> {
    match s
    case Registration(p, d) =>
      (match DigestInput(p, d, os)
       case Success(input) => RegistrationBytes(input, os.sha)
       case Failure(_) => Failure(EmptyField))
    case Revocation(input) => RevocationBytes(input, os.sha)
    case Attestation(input) => AttestationBytes(input, os.sha)
  }

  lemma PreparedBytes(p: Proof, d: Deployment, os: Platform)
    requires PrepareRegistration(p, d, os).Success?
    ensures Bytes(Registration(p, d), os).Success?
    ensures DigestBytes(PrepareRegistration(p, d, os).value) == os.sha(Bytes(Registration(p, d), os).value)
  {
    HashBytesOfHexText(os.sha(Bytes(Registration(p, d), os).value));
  }

  /** Two accepted byte strings that differ and hash alike. */
  ghost predicate BytesCollide(os: Platform, x: Result<Octets, DigestError>, y: Result<Octets, DigestError>) {
    x.Success? && y.Success? && Collision(os.sha, x.value, y.value)
  }

  ghost predicate ProofsCollide(os: Platform, p: Proof, q: Proof) {
    Serialize(ProofJson(p)).Success? && Serialize(ProofJson(q)).Success?
    && Collision(os.sha, Utf8(Serialize(ProofJson(p)).value), Utf8(Serialize(ProofJson(q)).value))
  }

  /** The collisions that could let one statement pass for another; each is between two named inputs. */
  ghost predicate Broken(os: Platform, s: Statement, p: Proof, d: Deployment) {
    BytesCollide(os, Bytes(s, os), Bytes(Registration(p, d), os))
    || (s.Registration?
        && (Collision(os.sha, Utf8(s.deployment.networkPassphrase), Utf8(d.networkPassphrase))
            || Collision(os.sha, Utf8(s.proof.payableId), Utf8(p.payableId))
            || Collision(os.sha, Utf8(s.proof.policyVersion), Utf8(p.policyVersion))
            || ProofsCollide(os, s.proof, p)))
  }

  // ---------------------------------------------------- a proof is its JSON

  /** Length and first letter tell the fourteen keys apart. */
  lemma KeysDiffer(i: nat, j: nat)
    requires i < j < |PROOF_KEYS|
    ensures Ascii(PROOF_KEYS[i]) != Ascii(PROOF_KEYS[j])
  {
    var lengths := [10, 12, 7, 12, 9, 13, 26, 6, 5, 14, 14, 11, 10, 6];
    assert |PROOF_KEYS[i]| == lengths[i] && |PROOF_KEYS[j]| == lengths[j];
    if lengths[i] == lengths[j] {
      assert Ascii(PROOF_KEYS[i])[0] != Ascii(PROOF_KEYS[j])[0];
    }
  }

  ghost predicate DifferentKeys(keys: seq<string>) {
    forall i, j :: 0 <= i < j < |keys| ==> Ascii(keys[i]) != Ascii(keys[j])
  }

  lemma {:induction false} MembersOfLookup(keys: seq<string>, values: seq<Json>, i: nat)
    requires |keys| == |values| && DifferentKeys(keys) && i < |keys|
    ensures HasKey(MembersOf(keys, values), Ascii(keys[i])) && Get(MembersOf(keys, values), Ascii(keys[i])) == values[i]
  {
    if i > 0 {
      MembersOfLookup(keys[1..], values[1..], i - 1);
    }
  }

  lemma {:induction false} MembersOfKeys(keys: seq<string>, values: seq<Json>, key: Str)
    requires |keys| == |values| && HasKey(MembersOf(keys, values), key)
    ensures exists i :: 0 <= i < |keys| && Ascii(keys[i]) == key
  {
    if Ascii(keys[0]) != key {
      MembersOfKeys(keys[1..], values[1..], key);
      var i :| 0 <= i < |keys[1..]| && Ascii(keys[1..][i]) == key;
      assert keys[i + 1] == keys[1..][i];
    }
  }

  lemma {:induction false} MembersOfAreProper(keys: seq<string>, values: seq<Json>)
    requires |keys| == |values| && DifferentKeys(keys) && forall i :: 0 <= i < |values| ==> Proper(values[i])
    ensures ProperMembers(MembersOf(keys, values))
  {
    if keys != [] {
      assert forall i :: 0 <= i < |values| - 1 ==> values[1..][i] == values[i + 1];
      MembersOfAreProper(keys[1..], values[1..]);
      if HasKey(MembersOf(keys[1..], values[1..]), Ascii(keys[0])) {
        MembersOfKeys(keys[1..], values[1..], Ascii(keys[0]));
      }
    }
  }

  lemma ProofJsonIsProper(p: Proof)
    ensures DifferentKeys(PROOF_KEYS) && Proper(ProofJson(p))
  {
    forall i, j | 0 <= i < j < |PROOF_KEYS| ensures Ascii(PROOF_KEYS[i]) != Ascii(PROOF_KEYS[j]) {
      KeysDiffer(i, j);
    }
    MembersOfAreProper(PROOF_KEYS, ProofValues(p));
  }

  lemma SameValueAt(p: Proof, q: Proof, i: nat)
    requires SameJson(ProofJson(p), ProofJson(q)) && i < |PROOF_KEYS|
    ensures SameJson(ProofValues(p)[i], ProofValues(q)[i])
  {
    ProofJsonIsProper(p);
    MembersOfLookup(PROOF_KEYS, ProofValues(p), i);
    MembersOfLookup(PROOF_KEYS, ProofValues(q), i);
    LookupWhenCovered(MembersOf(PROOF_KEYS, ProofValues(p)), MembersOf(PROOF_KEYS, ProofValues(q)),
                      Ascii(PROOF_KEYS[i]));
  }

  /** Field for field: proofs with the same JSON are the same proof. */
  lemma SameJsonSameProof(p: Proof, q: Proof)
    requires SameJson(ProofJson(p), ProofJson(q))
    ensures p == q
  {
    forall i | 0 <= i < |PROOF_KEYS| ensures ProofValues(p)[i] == ProofValues(q)[i] {
      SameValueAt(p, q, i);
    }
    var v, w := ProofValues(p), ProofValues(q);
    assert v[0] == w[0] && v[1] == w[1] && v[2] == w[2] && v[3] == w[3] && v[4] == w[4] && v[5] == w[5] && v[6] == w[6];
    assert v[7] == w[7] && v[8] == w[8] && v[9] == w[9] && v[10] == w[10] && v[11] == w[11] && v[12] == w[12];
  }

  lemma PreparedTextsAreWellFormed(p: Proof, d: Deployment, os: Platform)
    requires DigestInput(p, d, os).Success?
    ensures WellFormed(p.payableId) && WellFormed(p.policyVersion)
    ensures ProofHash(ProofJson(p), os.sha) == Success(DigestInput(p, d, os).value.proofHash) && p.asset == d.assetCode
    ensures var input := DigestInput(p, d, os).value;
            input == InputOf(p, d, input.proofHash, input.amountUnits, input.expiry.n)
  {
    var members, values := MembersOf(PROOF_KEYS, ProofValues(p)), ProofValues(p);
    AcceptsExactly(ProofJson(p));
    ProofJsonIsProper(p);
    MembersOfLookup(PROOF_KEYS, values, 0);
    MembersOfLookup(PROOF_KEYS, values, 9);
    AcceptableAt(members, Ascii(PROOF_KEYS[0]));
    AcceptableAt(members, Ascii(PROOF_KEYS[9]));
    assert values[0] == Words(p.payableId) && values[9] == Words(p.policyVersion);
  }

  lemma {:induction false} AcceptableAt(members: Members, key: Str)
    requires AcceptableMembers(members) && HasKey(members, key)
    ensures Acceptable(Get(members, key))
  {
    if members.key != key {
      AcceptableAt(members.rest, key);
    }
  }

  // --------------------------------------------- what an honest signature covers

  /** A revocation or an attestation never signs a registration's digest: their bytes differ from the ninth on. */
  lemma OnlyRegistrationsRegister(s: Statement, p: Proof, d: Deployment, os: Platform)
    requires !s.Registration? && Bytes(s, os).Success? && Bytes(Registration(p, d), os).Success?
    ensures Bytes(s, os) != Bytes(Registration(p, d), os)
  {
    var input := DigestInput(p, d, os).value;
    RegistrationBytesAgree(input, os.sha);
    var f := FieldsOf(input, os.sha);
    match s {
      case Revocation(r) =>
        RevocationBytesAgree(r, os.sha);
        var g := RevocationFieldsOf(r, os.sha);
        var h := D.AttestationFields(g.networkId, g.contractId, g.payableIdHash, 0, g.reasonHash, 0);
        D.DomainsAreSeparate(f, g, h);
      case Attestation(a) =>
        AttestationBytesAgree(a, os.sha);
        var h := AttestationFieldsOf(a, os.sha);
        var g := D.RevocationFields(h.networkId, h.contractId, h.payableIdHash, h.payableIdHash, h.reasonHash);
        D.DomainsAreSeparate(f, g, h);
    }
  }

  /** One deployment, its passphrase read as UTF-8 reads it. */
  predicate SameDeployment(d: Deployment, e: Deployment) {
    d.(networkPassphrase := Repaired(d.networkPassphrase)) == e.(networkPassphrase := Repaired(e.networkPassphrase))
  }

  lemma SameHashSameProof(p: Proof, q: Proof, os: Platform)
    requires ProofHash(ProofJson(p), os.sha).Success?
             && ProofHash(ProofJson(p), os.sha) == ProofHash(ProofJson(q), os.sha)
    ensures p == q || ProofsCollide(os, p, q)
  {
    ProofJsonIsProper(p);
    ProofJsonIsProper(q);
    ProofHashBinds(ProofJson(p), ProofJson(q), os.sha);
    if SameJson(ProofJson(p), ProofJson(q)) {
      SameJsonSameProof(p, q);
    }
  }

  lemma SameInputSameStatement(p: Proof, d: Deployment, q: Proof, e: Deployment, os: Platform)
    requires DigestInput(p, d, os).Success? && DigestInput(q, e, os).Success?
    requires SameInput(RepairedInput(DigestInput(p, d, os).value), RepairedInput(DigestInput(q, e, os).value))
    ensures (p == q && SameDeployment(d, e)) || ProofsCollide(os, p, q)
  {
    PreparedTextsAreWellFormed(p, d, os);
    PreparedTextsAreWellFormed(q, e, os);
    SameHashSameProof(p, q, os);
  }

  /** A registration's bytes are those of its digest input. */
  lemma RegisteredBytes(p: Proof, d: Deployment, os: Platform)
    requires Bytes(Registration(p, d), os).Success?
    ensures DigestInput(p, d, os).Success?
    ensures Bytes(Registration(p, d), os) == RegistrationBytes(DigestInput(p, d, os).value, os.sha)
    ensures var input := DigestInput(p, d, os).value;
            input.networkPassphrase == d.networkPassphrase && input.payableId == p.payableId
            && input.policyVersion == p.policyVersion
  {
    PreparedTextsAreWellFormed(p, d, os);
  }

  lemma SameBytesSameStatement(p: Proof, d: Deployment, q: Proof, e: Deployment, os: Platform)
    requires Bytes(Registration(p, d), os).Success? && Bytes(Registration(p, d), os) == Bytes(Registration(q, e), os)
    ensures (p == q && SameDeployment(d, e)) || Broken(os, Registration(p, d), q, e)
  {
    RegisteredBytes(p, d, os);
    RegisteredBytes(q, e, os);
    RegistrationBytesBind(DigestInput(p, d, os).value, DigestInput(q, e, os).value, os.sha);
    if SameInput(RepairedInput(DigestInput(p, d, os).value), RepairedInput(DigestInput(q, e, os).value)) {
      SameInputSameStatement(p, d, q, e, os);
    }
  }

  /** One of these statements has this digest. */
  ghost predicate MadeFor(book: set<Statement>, m: Bytes32, os: Platform) {
    exists st :: st in book && Bytes(st, os).Success? && os.sha(Bytes(st, os).value) == m
  }

  /** This one signature is no forgery: if it verifies, the key's owner made it for a statement in the book. */
  ghost predicate Unforged(publicKey: Bytes32, m: Bytes32, signature: Octets, book: set<Statement>, os: Platform,
                           verifies: Verifies)
  {
    verifies(publicKey, m, signature) ==> MadeFor(book, m, os)
  }

  /** The book holds this proof for this deployment. */
  ghost predicate Holds(book: set<Statement>, p: Proof, d: Deployment) {
    exists e :: Registration(p, e) in book && SameDeployment(e, d)
  }

  lemma HeldAsItIs(book: set<Statement>, p: Proof, d: Deployment)
    requires WellFormed(d.networkPassphrase) && Holds(book, p, d)
    requires forall st :: st in book && st.Registration? ==> WellFormed(st.deployment.networkPassphrase)
    ensures Registration(p, d) in book
  {
    var e :| Registration(p, e) in book && SameDeployment(e, d);
    assert Registration(p, e).deployment == e;
    WellFormedIsRepaired(d.networkPassphrase);
    WellFormedIsRepaired(e.networkPassphrase);
    assert e == d;
  }

  lemma StatementBehind(st: Statement, book: set<Statement>, p: Proof, d: Deployment, os: Platform)
    requires st in book && Bytes(st, os).Success? && Bytes(Registration(p, d), os).Success?
    requires os.sha(Bytes(st, os).value) == os.sha(Bytes(Registration(p, d), os).value)
    ensures Holds(book, p, d) || Broken(os, st, p, d)
  {
    if Bytes(st, os) == Bytes(Registration(p, d), os) {
      if st.Registration? {
        SameBytesSameStatement(st.proof, st.deployment, p, d, os);
        assert Registration(st.proof, st.deployment) in book;
      } else {
        OnlyRegistrationsRegister(st, p, d, os);
      }
    }
  }

  /** An envelope that verifies carries, field for field, a proof the key's owner signed, for the same network, gate
      and asset; otherwise its signature is a forgery, or two named inputs of SHA-256 collide. */
  lemma AcceptedMeansSigned(publicKey: Bytes32, book: set<Statement>, s: SignedProof, d: Deployment, os: Platform,
                            verifies: Verifies)
    requires StrKeyPayload(s.issuerPublicKey, VERSION_ACCOUNT) == Success(publicKey)
    requires VerifySignedProof(s, d, os, verifies).Success?
    requires Unforged(publicKey, DigestBytes(VerifySignedProof(s, d, os, verifies).value), s.issuerSignature, book,
                      os, verifies)
    ensures Holds(book, s.proof, d) || exists st :: st in book && Broken(os, st, s.proof, d)
    ensures s.contractId == d.contractId && s.networkPassphrase == d.networkPassphrase
  {
    var m := DigestBytes(VerifySignedProof(s, d, os, verifies).value);
    PreparedBytes(s.proof, d, os);
    assert MadeFor(book, m, os);
    var st :| st in book && Bytes(st, os).Success? && os.sha(Bytes(st, os).value) == m;
    StatementBehind(st, book, s.proof, d, os);
  }

  /** The hypotheses above are those of any working key: what it signs verifies, and is no forgery. */
  lemma OwnEnvelopesAreUnforged(issuer: Issuer, book: set<Statement>, p: Proof, d: Deployment, os: Platform,
                                verifies: Verifies)
    requires Matching(issuer, verifies) && Sign(issuer, p, d, os).Success? && Registration(p, d) in book
    ensures var s := Sign(issuer, p, d, os).value.0;
            StrKeyPayload(s.issuerPublicKey, VERSION_ACCOUNT) == Success(issuer.publicKey)
            && VerifySignedProof(s, d, os, verifies).Success?
            && Unforged(issuer.publicKey, DigestBytes(VerifySignedProof(s, d, os, verifies).value), s.issuerSignature,
                        book, os, verifies)
            && Holds(book, s.proof, d)
  {
    VerifyingWhatWasSigned(issuer, p, d, os, verifies);
    DecodeEncode(issuer.publicKey, VERSION_ACCOUNT);
    PreparedBytes(p, d, os);
    assert SameDeployment(d, d);
  }
}
