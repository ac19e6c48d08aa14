/** The values the authority protocol signs, hashes and stores.

    Digests and signatures are free constructors: a digest remembers exactly
    what was hashed and a signature remembers who signed which message, so both
    are injective and acyclic by construction.  Times are integers in
    microseconds. */
module AuthorityData {
  import opened Outcomes

  type OperatorId = string
  type InstallId = string
  type StoreId = string
  type KeyId = string
  type Bytes = seq<nat>

  const SECOND: int := 1_000_000
  const DAY_SECONDS: int := 24 * 60 * 60

  datatype KeyKind = Installation | Recovery
  datatype KeyStatus = Active | Retired | Revoked | Compromised

  datatype Blob = Blob(path: string, sha: Digest, size: int, suite: string)

  /** The four fields every key certificate carries. */
  datatype KeyBinding = KeyBinding(keyId: KeyId, publicKey: Bytes, fingerprint: Digest, installId: InstallId)

  datatype Authorization = Authorization(
    operator: OperatorId, store: StoreId, newInstall: InstallId, newKey: KeyId,
    newPublicKey: Bytes, nonce: string, requestSha: Digest,
    precedingHead: Digest, expiresAt: int)

  /** The details object of a lifecycle event.  Which optional parts are present
      is what the program tests when it compares the set of field names. */
  datatype Details =
    | KeyDetails(binding: KeyBinding, blob: Option<Blob>, authorization: Option<Authorization>,
                 oldKey: Option<KeyId>, oldInstall: Option<InstallId>)
    | StateDetails(target: KeyId, effectiveAt: int, compromisedAt: Option<int>, reason: string,
                   replacement: Option<KeyId>, affected: seq<InstallId>, evidence: seq<Digest>,
                   requiredRevocations: seq<KeyId>)
    | AdjudicationDetails(proofId: string, chosenCheckpoint: Digest, rejectedProof: Digest,
                          reason: string, decidedAt: int)
    | OtherDetails

  datatype EventKind =
    | Enrollment
    | RecoveryCreated
    | InstallationPaired
    | KeyRotated
    | KeyRevoked
    | KeyCompromised
    | RecoveryRevoked
    | InstallationRebound
    | ConflictAdjudicated
    | OtherKind(name: string)

  datatype Event =
    | Genesis(sequence: int, eventId: string, kind: EventKind, operator: OperatorId, installId: InstallId,
              keyId: KeyId, createdAt: int, previous: Option<Digest>,
              store: StoreId, publicKey: Bytes, fingerprint: Digest, nonce: string, blob: Blob,
              recovery: Option<KeyBinding>, signer: Option<KeyId>)
    | Lifecycle(sequence: int, eventId: string, kind: EventKind, operator: OperatorId, installId: InstallId,
                keyId: KeyId, createdAt: int, previous: Option<Digest>,
                signedBy: KeyId, details: Details)
  {
    function SignerId(): KeyId {
      match this
      case Genesis(_, _, _, _, _, _, _, _, _, _, _, _, _, _, signer) =>
        if signer.Some? then signer.value else keyId
      case Lifecycle(_, _, _, _, _, _, _, _, signedBy, _) => signedBy
    }
  }

  /** One entry of the replayed key map. */
  datatype Key = Key(
    keyId: KeyId, publicKey: Bytes, fingerprint: Digest, installId: InstallId, kind: KeyKind,
    status: KeyStatus, paired: bool, blob: Option<Blob>, certSequence: int, certSha: Digest,
    effectiveAt: int, compromisedAt: Option<int>, replacement: Option<KeyId>)

  type KeyMap = map<KeyId, Key>

  datatype SignerCertificate = SignerCertificate(
    keyId: KeyId, installId: InstallId, publicKey: Bytes, fingerprint: Digest, kind: KeyKind,
    paired: bool, sequence: int, eventSha: Digest)

  datatype CheckpointBody = CheckpointBody(
    operator: OperatorId, store: StoreId, sequence: int, eventSha: Digest, genesisSha: Digest,
    keyStateSha: Digest, prior: Option<Digest>, signerKeyId: KeyId, certificate: SignerCertificate,
    issuedAt: int, expiresAt: int)

  datatype Checkpoint = Checkpoint(body: CheckpointBody, signature: Signature)

  datatype PairingRequest = PairingRequest(
    requestId: string, operator: OperatorId, store: StoreId, binding: KeyBinding, nonce: string,
    blob: Blob, createdAt: int, expiresAt: int, expectedSequence: int)

  datatype Digest =
    | EventDigest(event: Event)
    | KeyStateDigest(keys: KeyMap)
    | CheckpointDigest(checkpoint: Checkpoint)
    | FingerprintDigest(publicKey: Bytes)
    | RequestDigest(request: PairingRequest)
    | ProofDigest(row: Row)
    | TextDigest(text: string)

  datatype Message =
    | LedgerMessage(event: Event)
    | CheckpointMessage(body: CheckpointBody)

  datatype Signature = Signed(signerKey: Bytes, message: Message) | Malformed

  function Sign(privateKeyOf: Bytes, message: Message): Signature {
    Signed(privateKeyOf, message)
  }

  predicate SignatureOk(publicKey: Bytes, message: Message, signature: Signature) {
    signature == Signed(publicKey, message)
  }

  /** The columns of a ledger row that repeat fields of the signed event. */
  datatype Columns = Columns(eventId: string, kind: EventKind, operator: OperatorId, installId: InstallId,
                             keyId: KeyId, previous: Option<Digest>, createdAt: int)

  function ColumnsOf(e: Event): Columns {
    Columns(e.eventId, e.kind, e.operator, e.installId, e.keyId, e.previous, e.createdAt)
  }

  datatype Row = Row(sequence: int, columns: Columns, event: Event, sha: Digest, signature: Signature)
}
