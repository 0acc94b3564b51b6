/** What preparing, signing and verifying come to, said of the proof's own fields. */
module IssuingMeaning {
  import opened Primitives
  import opened Text
  import opened Numerals
  import opened Amount
  import opened StrKey
  import opened StrKeyMeaning
  import opened RegistrationDigest
  import opened Jcs
  import opened Issuing

  // ------------------------------------------------------------- the proof

  /** A text of this pattern: a zero stands for any digit, everything else for itself. */
  predicate Matches(s: Str, pattern: string) {
    |s| == |pattern|
    && forall i :: 0 <= i < |s| ==> if pattern[i] == '0' then 48 <= s[i] <= 57 else s[i] == pattern[i] as int
  }

  /** Lowercase hexadecimal of 32 bytes. */
  predicate IsDigest(s: Str) {
    |s| == 64 && forall i :: 0 <= i < 64 ==> 48 <= s[i] <= 57 || 97 <= s[i] <= 102
  }

  /** A letter and 55 characters of the base32 alphabet. */
  predicate IsKeyOf(s: Str, letter: char) {
    |s| == 56 && s[0] == letter as int && forall i :: 0 <= i < 56 ==> 65 <= s[i] <= 90 || 50 <= s[i] <= 55
  }

  lemma InstantsMatch(s: Str)
    ensures InstantShape(s) <==> Matches(s, "0000-00-00T00:00:00Z")
  {
    var pattern := "0000-00-00T00:00:00Z";
    if |s| == 20 {
      forall i | 0 <= i < 20
        ensures (if i == 4 || i == 7 then s[i] == 45 else if i == 10 then s[i] == 84
                 else if i == 13 || i == 16 then s[i] == 58 else if i == 19 then s[i] == 90 else IsDigit(s[i]))
                <==> if pattern[i] == '0' then 48 <= s[i] <= 57 else s[i] == pattern[i] as int
      {
        InstantAt(pattern, i);
      }
    }
  }

  lemma InstantAt(pattern: string, i: nat)
    requires pattern == "0000-00-00T00:00:00Z" && i < 20
    ensures pattern[i] as int == if i == 4 || i == 7 then 45 else if i == 10 then 84 else if i == 13 || i == 16 then 58
                                 else if i == 19 then 90 else 48
  {
    if i == 0 {} else if i == 1 {} else if i == 2 {} else if i == 3 {} else if i == 4 {} else if i == 5 {}
    else if i == 6 {} else if i == 7 {} else if i == 8 {} else if i == 9 {} else if i == 10 {} else if i == 11 {}
    else if i == 12 {} else if i == 13 {} else if i == 14 {} else if i == 15 {} else if i == 16 {} else if i == 17 {}
    else if i == 18 {} else {}
  }

  /** What the schema asks of each field. */
  lemma SchemaExactly(p: Proof)
    ensures Schema(p) <==>
              p.payableId != [] && p.vendorId != [] && p.asset != [] && p.policyVersion != [] && p.costCenter != []
              && IsDigest(p.invoiceHash) && IsDigest(p.poHash) && IsDigest(p.receiptHash) && IsDigest(p.approvalsHash)
              && IsKeyOf(p.vendorWallet, 'G') && p.walletAttestationVersion >= 1 && AmountShape(p.amount)
              && Matches(p.expiresAt, "0000-00-00T00:00:00Z")
  {
    HashShape(p.invoiceHash);
    HashShape(p.poHash);
    HashShape(p.receiptHash);
    HashShape(p.approvalsHash);
    InstantsMatch(p.expiresAt);
  }

  ghost predicate Tells(members: Members, key: string, value: Json) {
    HasKey(members, Ascii(key)) && Get(members, Ascii(key)) == value
  }

  lemma ToldAt(p: Proof, i: nat)
    requires i < 14
    ensures Tells(MembersOf(PROOF_KEYS, ProofValues(p)), PROOF_KEYS[i], ProofValues(p)[i])
  {
    ProofJsonIsProper(p);
    MembersOfLookup(PROOF_KEYS, ProofValues(p), i);
  }

  /** The object that is hashed: fourteen members, each field under its own name. */
  lemma ProofObjectTells(p: Proof)
    ensures ProofJson(p).Object? && Count(ProofJson(p).members) == 14
    ensures var o := ProofJson(p).members;
            Tells(o, "payable_id", Words(p.payableId)) && Tells(o, "invoice_hash", Words(p.invoiceHash))
            && Tells(o, "po_hash", Words(p.poHash)) && Tells(o, "receipt_hash", Words(p.receiptHash))
            && Tells(o, "vendor_id", Words(p.vendorId)) && Tells(o, "vendor_wallet", Words(p.vendorWallet))
            && Tells(o, "wallet_attestation_version", Integer(p.walletAttestationVersion))
            && Tells(o, "amount", Words(p.amount)) && Tells(o, "asset", Words(p.asset))
            && Tells(o, "policy_version", Words(p.policyVersion)) && Tells(o, "approvals_hash", Words(p.approvalsHash))
            && Tells(o, "cost_center", Words(p.costCenter)) && Tells(o, "expires_at", Words(p.expiresAt))
            && Tells(o, "status", Words(Ascii("READY")))
  {
    MembersOfCount(PROOF_KEYS, ProofValues(p));
    ToldAt(p, 0);
    ToldAt(p, 1);
    ToldAt(p, 2);
    ToldAt(p, 3);
    ToldAt(p, 4);
    ToldAt(p, 5);
    ToldAt(p, 6);
    ToldAt(p, 7);
    ToldAt(p, 8);
    ToldAt(p, 9);
    ToldAt(p, 10);
    ToldAt(p, 11);
    ToldAt(p, 12);
    ToldAt(p, 13);
  }

  lemma {:induction false} MembersOfCount(keys: seq<string>, values: seq<Json>)
    requires |keys| == |values|
    ensures Count(MembersOf(keys, values)) == |keys|
  {
    if keys != [] {
      MembersOfCount(keys[1..], values[1..]);
    }
  }

  // ------------------------------------------------------------- preparation

  /** What is digested, each field under its own name. */
  function Digested(p: Proof, d: Deployment, proofHash: Str, units: int, seconds: int): RegistrationInput {
    RegistrationInput(
      networkPassphrase := d.networkPassphrase, contractId := d.contractId, payableId := p.payableId,
      proofHash := proofHash, recipient := p.vendorWallet, assetContractId := d.assetContractId, amountUnits := units,
      policyVersion := p.policyVersion, expiry := Number(seconds))
  }

  /** The first thing that keeps a proof from being prepared. */
  ghost function Obstacle(p: Proof, d: Deployment, os: Platform): Option<IssuingError> {
    if InputObstacle(p, d, os).Some? then InputObstacle(p, d, os)
    else
      var input := Digested(p, d, ProofHash(ProofJson(p), os.sha).value, DecimalToUnits(p.amount).value,
                            os.secondsOf(p.expiresAt).value);
      match RegistrationBytes(input, os.sha)
      case Failure(cause) => Some(BadDigest(cause))
      case Success(_) => None
  }

  /** What comes before the digest itself. */
  ghost function InputObstacle(p: Proof, d: Deployment, os: Platform): Option<IssuingError> {
    if !Schema(p) then Some(BadSchema)
    else if StrKeyPayload(p.vendorWallet, 48).Failure? then Some(BadWallet(StrKeyPayload(p.vendorWallet, 48).error))
    else if p.asset != d.assetCode then Some(OtherAsset)
    else if DecimalToUnits(p.amount).Failure? then Some(BadAmount(DecimalToUnits(p.amount).error))
    else if os.secondsOf(p.expiresAt).None? then Some(BadInstant)
    else if ProofHash(ProofJson(p), os.sha).Failure? then Some(BadJson(ProofHash(ProofJson(p), os.sha).error))
    else None
  }

  lemma DigestsExactly(p: Proof, d: Deployment, os: Platform)
    ensures match InputObstacle(p, d, os)
            case Some(error) => DigestInput(p, d, os) == Failure(error)
            case None =>
              DigestInput(p, d, os) == Success(Digested(p, d, ProofHash(ProofJson(p), os.sha).value,
                                                        DecimalToUnits(p.amount).value,
                                                        os.secondsOf(p.expiresAt).value))
  {
  }

  /** Each prepared value, from the proof's field it stands for. */
  ghost predicate Prepares(p: Proof, d: Deployment, os: Platform, r: Prepared) {
    DecimalToUnits(p.amount) == Success(r.amountUnits) && os.secondsOf(p.expiresAt) == Some(r.expiry)
    && ProofHash(ProofJson(p), os.sha) == Success(r.proofHash)
    && r.payableId == p.payableId && r.recipient == p.vendorWallet
    && HashBytes(r.payableIdHash) == os.sha(Utf8(p.payableId))
      && HashBytes(r.policyHash) == os.sha(Utf8(p.policyVersion))
    && var bytes := RegistrationBytes(Digested(p, d, r.proofHash, r.amountUnits, r.expiry), os.sha);
       bytes.Success? && HashBytes(r.registrationDigest) == os.sha(bytes.value)
  }

  /** A proof is prepared exactly when nothing of this stands in the way. */
  lemma PreparesExactly(p: Proof, d: Deployment, os: Platform)
    ensures match Obstacle(p, d, os)
            case Some(error) => PrepareRegistration(p, d, os) == Failure(error)
            case None => PrepareRegistration(p, d, os).Success?
  {
    DigestsExactly(p, d, os);
  }

  lemma PreparedNumbers(p: Proof, d: Deployment, os: Platform)
    requires PrepareRegistration(p, d, os).Success?
    ensures var r := PrepareRegistration(p, d, os).value;
            DecimalToUnits(p.amount) == Success(r.amountUnits) && os.secondsOf(p.expiresAt) == Some(r.expiry)
            && ProofHash(ProofJson(p), os.sha) == Success(r.proofHash)
            && r.payableId == p.payableId && r.recipient == p.vendorWallet
            && DigestInput(p, d, os) == Success(Digested(p, d, r.proofHash, r.amountUnits, r.expiry))
  {
    DigestsExactly(p, d, os);
    PreparedFrom(p, d, os);
  }

  lemma PreparedFrom(p: Proof, d: Deployment, os: Platform)
    requires PrepareRegistration(p, d, os).Success?
    ensures DigestInput(p, d, os).Success?
    ensures var r, input := PrepareRegistration(p, d, os).value, DigestInput(p, d, os).value;
            r.payableId == p.payableId && r.recipient == p.vendorWallet && r.proofHash == input.proofHash
            && r.amountUnits == input.amountUnits && r.expiry == input.expiry.n
  {
  }

  lemma PreparedNames(p: Proof, d: Deployment, os: Platform)
    requires PrepareRegistration(p, d, os).Success?
    ensures var r := PrepareRegistration(p, d, os).value;
            HashBytes(r.payableIdHash) == os.sha(Utf8(p.payableId))
              && HashBytes(r.policyHash) == os.sha(Utf8(p.policyVersion))
  {
    HashBytesOfHexText(os.sha(Utf8(p.payableId)));
    HashBytesOfHexText(os.sha(Utf8(p.policyVersion)));
  }

  lemma PreparedTells(p: Proof, d: Deployment, os: Platform)
    requires PrepareRegistration(p, d, os).Success?
    ensures Prepares(p, d, os, PrepareRegistration(p, d, os).value)
  {
    PreparedNumbers(p, d, os);
    PreparedNames(p, d, os);
    PreparedBytes(p, d, os);
    RegisteredBytes(p, d, os);
  }

  // ---------------------------------------------------- signing and verifying

  lemma KeysHaveShape(text: Str, version: bv8, letter: char)
    requires StrKeyPayload(text, version).Success?
    requires (version == VERSION_ACCOUNT && letter == 'G') || (version == VERSION_CONTRACT && letter == 'C')
    ensures IsKeyOf(text, letter)
  {
    EncodeDecode(text, version);
    FirstLetters(StrKeyPayload(text, version).value);
    AcceptedBase32(text);
  }

  lemma DigestInputIs(p: Proof, d: Deployment, os: Platform)
    requires PrepareRegistration(p, d, os).Success?
    ensures d.networkPassphrase != [] && StrKeyPayload(d.contractId, VERSION_CONTRACT).Success?
  {
    PreparedTextsAreWellFormed(p, d, os);
    DigestedFields(DigestInput(p, d, os).value, os);
  }

  lemma DigestedFields(input: RegistrationInput, os: Platform)
    requires RegistrationBytes(input, os.sha).Success?
    ensures input.networkPassphrase != [] && StrKeyPayload(input.contractId, VERSION_CONTRACT).Success?
  {
    FieldsAccepted(input, os.sha);
    NetworkIsNamed(input, os.sha);
  }

  /** An issuer signs whatever can be prepared, provided its signatures are of 64 bytes. The envelope carries the proof,
      its hash, the issuer's own key and signature, and the deployment. */
  lemma SignsExactly(issuer: Issuer, p: Proof, d: Deployment, os: Platform)
    ensures match PrepareRegistration(p, d, os)
            case Failure(error) => Sign(issuer, p, d, os) == Failure(error)
            case Success(prepared) =>
              var signature := issuer.sign(HashBytes(prepared.registrationDigest));
              if |signature| != 64 then Sign(issuer, p, d, os) == Failure(BadEnvelope)
              else
                Sign(issuer, p, d, os).Success?
                && var (s, r) := Sign(issuer, p, d, os).value;
                   r == prepared && s.proof == p && s.proofHash == prepared.proofHash && s.issuerSignature == signature
                   && StrKeyPayload(s.issuerPublicKey, 48) == Success(issuer.publicKey)
                   && s.networkPassphrase == d.networkPassphrase && s.contractId == d.contractId
  {
    DecodeEncode(issuer.publicKey, VERSION_ACCOUNT);
    KeysHaveShape(StrKeyText(issuer.publicKey, VERSION_ACCOUNT).value, VERSION_ACCOUNT, 'G');
    if PrepareRegistration(p, d, os).Success? {
      DigestInputIs(p, d, os);
      KeysHaveShape(d.contractId, VERSION_CONTRACT, 'C');
    }
  }

  /** What an envelope is refused for, in this order; otherwise it yields what its proof prepares to. */
  lemma VerifiesExactly(s: SignedProof, d: Deployment, os: Platform, verifies: Verifies)
    ensures var r, prepared, key := VerifySignedProof(s, d, os, verifies), PrepareRegistration(s.proof, d, os),
                                    StrKeyPayload(s.issuerPublicKey, 48);
            if s.contractId != d.contractId then r == Failure(OtherGate)
            else if s.networkPassphrase != d.networkPassphrase then r == Failure(OtherNetwork)
            else if prepared.Failure? then r == prepared
            else if s.proofHash != prepared.value.proofHash then r == Failure(AlteredProof)
            else if key.Failure? then r == Failure(BadIssuerKey(key.error))
            else if !verifies(key.value, HashBytes(prepared.value.registrationDigest), s.issuerSignature)
            then r == Failure(BadSignature)
            else r == prepared
  {
  }

  // ------------------------------------------------------------ the envelope

  const ENVELOPE: seq<string> :=
    ["proof_hash", "issuer_public_key", "issuer_signature", "network_passphrase", "contract_id"]

  lemma {:induction false} StrippedAppend(x: Members, y: Members, excluded: set<Str>)
    ensures Stripped(Append(x, y), excluded) == Append(Stripped(x, excluded), Stripped(y, excluded))
  {
    if x.Member? {
      StrippedAppend(x.rest, y, excluded);
    }
  }

  lemma {:induction false} StrippedAway(keys: seq<string>, values: seq<Json>, excluded: set<Str>)
    requires |keys| == |values| && forall i :: 0 <= i < |keys| ==> Ascii(keys[i]) in excluded
    ensures Stripped(MembersOf(keys, values), excluded) == NoMembers
  {
    if keys != [] {
      StrippedAway(keys[1..], values[1..], excluded);
    }
  }

  lemma {:induction false} StrippedKept(keys: seq<string>, values: seq<Json>, excluded: set<Str>)
    requires |keys| == |values| && forall i :: 0 <= i < |keys| ==> Ascii(keys[i]) !in excluded
    ensures Stripped(MembersOf(keys, values), excluded) == MembersOf(keys, values)
  {
    if keys != [] {
      StrippedKept(keys[1..], values[1..], excluded);
    }
  }

  lemma EnvelopeIsExcluded(i: nat)
    requires i < 5
    ensures Ascii(ENVELOPE[i]) in EnvelopeKeys()
  {
    assert ENVELOPE[i] == SIGNATURE_ENVELOPE_KEYS[i];
  }

  lemma ProofIsNotExcluded(i: nat)
    requires i < 14
    ensures Ascii(PROOF_KEYS[i]) !in EnvelopeKeys()
  {
    forall k: nat | k < 5 ensures Ascii(SIGNATURE_ENVELOPE_KEYS[k]) != Ascii(PROOF_KEYS[i]) {
      KeysAreApart(i, k);
    }
  }

  /** Length and the first three letters tell an envelope key from a proof's. */
  lemma KeysAreApart(i: nat, k: nat)
    requires i < 14 && k < 5
    ensures Ascii(SIGNATURE_ENVELOPE_KEYS[k]) != Ascii(PROOF_KEYS[i])
  {
    var lengths := [10, 12, 7, 12, 9, 13, 26, 6, 5, 14, 14, 11, 10, 6];
    var others := [10, 17, 16, 18, 11];
    assert |PROOF_KEYS[i]| == lengths[i] && |SIGNATURE_ENVELOPE_KEYS[k]| == others[k];
    if lengths[i] == others[k] {
      if i == 11 {
        assert Ascii(PROOF_KEYS[i])[2] != Ascii(SIGNATURE_ENVELOPE_KEYS[k])[2];
      } else {
        assert Ascii(PROOF_KEYS[i])[0] != Ascii(SIGNATURE_ENVELOPE_KEYS[k])[0]
            || Ascii(PROOF_KEYS[i])[1] != Ascii(SIGNATURE_ENVELOPE_KEYS[k])[1];
      }
    }
  }

  /** Without its envelope a signed proof is the proof: its hash is the proof's. */
  lemma WithoutItsEnvelope(p: Proof, values: seq<Json>, sha: Octets -> Bytes32)
    requires |values| == 5
    ensures var signed := Append(MembersOf(PROOF_KEYS, ProofValues(p)), MembersOf(ENVELOPE, values));
            Object(Stripped(signed, EnvelopeKeys())) == ProofJson(p)
            && ProofHash(Object(Stripped(signed, EnvelopeKeys())), sha) == ProofHash(ProofJson(p), sha)
  {
    forall i: nat | i < 5 ensures Ascii(ENVELOPE[i]) in EnvelopeKeys() {
      EnvelopeIsExcluded(i);
    }
    forall i: nat | i < 14 ensures Ascii(PROOF_KEYS[i]) !in EnvelopeKeys() {
      ProofIsNotExcluded(i);
    }
    StrippedAppend(MembersOf(PROOF_KEYS, ProofValues(p)), MembersOf(ENVELOPE, values), EnvelopeKeys());
    StrippedAway(ENVELOPE, values, EnvelopeKeys());
    StrippedKept(PROOF_KEYS, ProofValues(p), EnvelopeKeys());
    AppendNothing(MembersOf(PROOF_KEYS, ProofValues(p)));
  }
}
