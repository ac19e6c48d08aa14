/** The human-present ceremonies, each one transaction over the authority tables.

    Every ceremony is a function from the tables to the tables it commits, or
    Rejected when an error rolls it back.  Fresh identifiers, generated keys and
    clock readings are parameters; prompts and passphrases are not modelled. */
module AuthorityService {
  import opened Outcomes
  import opened AuthorityData
  import opened AuthorityLedger
  import opened AuthorityTrust

  /** A key pair generated by the ceremony, with the encrypted blob it has published. */
  datatype NewKey = NewKey(keyId: KeyId, publicKey: Bytes, blob: Blob, nonce: string)

  function BindingOf(key: NewKey, install: InstallId): KeyBinding {
    KeyBinding(key.keyId, key.publicKey, FingerprintDigest(key.publicKey), install)
  }

  /** The public ledger with its closed checkpoint history, carried between machines. */
  datatype Transport = Transport(
    operator: OperatorId, store: StoreId, genesisSha: Digest, ledger: seq<Row>, history: seq<Checkpoint>,
    checkpoint: Checkpoint)

  /** The offline recovery bundle; `signedBy` is the public key its manifest signature verifies under. */
  datatype Bundle = Bundle(
    operator: OperatorId, store: StoreId, genesisSha: Digest, ledger: seq<Row>, history: seq<Checkpoint>,
    ledgerSequence: int, ledgerHead: Digest, recoveryKey: KeyId, recoveryPublicKey: Bytes,
    signerKey: KeyId, signerInstall: InstallId, signedBy: Bytes)

  datatype Package = Package(request: PairingRequest, transport: Transport, certificateSha: Digest)

  // ---------- carried material ----------

  /** Every item verifies against one ledger and continues the digest before it. */
  predicate HistoryOk(rows: seq<Row>, op: OperatorId, store: StoreId, history: seq<Checkpoint>, prior: Option<Digest>,
                      mustBeFresh: Option<Checkpoint>, now: int)
  {
    history == [] ||
    (&& history[0].body.prior == prior
     && Verifies(rows, op, Some(store), Some(history[0]), None, now, mustBeFresh == Some(history[0]))
     && HistoryOk(rows, op, store, history[1..], Some(CheckpointDigest(history[0])), mustBeFresh, now))
  }

  predicate TransportOk(t: Transport, now: int) {
    && t.history != []
    && HistoryOk(t.ledger, t.operator, t.store, t.history, None, Some(t.history[|t.history| - 1]), now)
    && t.history[|t.history| - 1] == t.checkpoint
    && Verifies(t.ledger, t.operator, Some(t.store), Some(t.checkpoint), None, now, true)
    && t.ledger[0].sha == t.genesisSha
  }

  predicate BundleOk(b: Bundle) {
    && b.history != []
    && HistoryOk(b.ledger, b.operator, b.store, b.history, None, None, 0)
    && Verifies(b.ledger, b.operator, Some(b.store), None, None, 0, true)
    && |b.ledger| == b.ledgerSequence && HeadSha(b.ledger) == b.ledgerHead
    && b.ledger[0].sha == b.genesisSha
    && var keys := KeysAfter(b.ledger);
    && IsActive(keys, b.signerKey) && keys[b.signerKey].kind == Installation && keys[b.signerKey].installId == b.signerInstall
    && IsActive(keys, b.recoveryKey) && keys[b.recoveryKey].kind == Recovery
    && b.signedBy == keys[b.signerKey].publicKey
  }

  /** The bundle's last checkpoint is fresh on its own ledger. */
  predicate BundleFresh(b: Bundle, now: int) {
    b.history != [] && CheckpointOk(b.ledger, b.operator, b.history[|b.history| - 1], now, true)
  }

  /** Pinned checkpoints ordered by acceptance time, ties by insertion. */
  function HistoryOf(pins: seq<Pin>): seq<Checkpoint> {
    var sorted := SortPins(pins);
    seq(|sorted|, i requires 0 <= i < |sorted| => sorted[i].checkpoint)
  }

  function SortPins(pins: seq<Pin>): (r: seq<Pin>)
    ensures multiset(r) == multiset(pins)
  {
    if pins == [] then []
    else
      assert pins == pins[..|pins| - 1] + [pins[|pins| - 1]];
      InsertPin(SortPins(pins[..|pins| - 1]), pins[|pins| - 1])
  }

  function InsertPin(sorted: seq<Pin>, pin: Pin): (r: seq<Pin>)
    ensures multiset(r) == multiset(sorted) + multiset{pin}
  {
    if sorted == [] then [pin]
    else if sorted[|sorted| - 1].acceptedAt <= pin.acceptedAt then sorted + [pin]
    else
      assert sorted == sorted[..|sorted| - 1] + [sorted[|sorted| - 1]];
      InsertPin(sorted[..|sorted| - 1], pin) + [sorted[|sorted| - 1]]
  }

  // ---------- the local key ----------

  function ActiveRows(keyRows: map<KeyId, KeyRow>): set<KeyId> {
    set id | id in keyRows && keyRows[id].status == Active
  }

  /** `active_binding`: exactly one active row, already covered by the ledger. */
  ghost function ActiveBinding(db: Db): (r: Result<KeyId>)
    ensures r.Ok? ==> ActiveRows(db.keyRows) == {r.value}
  {
    var active := ActiveRows(db.keyRows);
    if |active| == 1 then
      var id :| id in active;
      assert active == {id} by {
        assert |active - {id}| == 0;
      }
      if |db.ledger| > 0 && |db.ledger| >= db.keyRows[id].sequence then Ok(id) else Rejected
    else
      Rejected
  }

  /** The blob a certificate binds. */
  function CertificateBlob(e: Event): Option<Blob> {
    if e.Genesis? then Some(e.blob)
    else if e.details.KeyDetails? then e.details.blob
    else None
  }

  /** One `authority_keys` row says what the replay and the signed certificate say. */
  predicate RowAgrees(ledger: seq<Row>, keys: KeyMap, id: KeyId, row: KeyRow) {
    && id in keys
    && keys[id].status == row.status
    && keys[id].installId == row.installId
    && keys[id].publicKey == row.publicKey
    && 1 <= row.sequence <= |ledger|
    && CertificateBlob(ledger[row.sequence - 1].event) == Some(row.blob)
  }

  predicate RowsAgree(ledger: seq<Row>, keyRows: map<KeyId, KeyRow>) {
    forall id | id in keyRows :: RowAgrees(ledger, KeysAfter(ledger), id, keyRows[id])
  }

  /** Reconciled rows and the one active among them. */
  ghost function ReconciledKey(db: Db, op: OperatorId): Result<KeyId> {
    var anchor :- WritableAnchor(db);
    :- Check(Accepted(db.ledger, op));
    :- Check(RowsAgree(db.ledger, db.keyRows));
    ActiveBinding(db)
  }

  /** Reconcile, then open the one active local key. */
  ghost function SigningKey(db: Db, op: OperatorId): Result<KeyId> {
    var id :- ReconciledKey(db, op);
    :- Check(IsActive(KeysAfter(db.ledger), id) && KeysAfter(db.ledger)[id].kind == Installation);
    Ok(id)
  }

  // ---------- parts of a transaction ----------

  function AppendEvent(db: Db, eventId: string, kind: EventKind, op: OperatorId, install: InstallId, keyId: KeyId,
                       signedBy: KeyId, privateKeyOf: Bytes, details: Details, at: int): Result<Db>
  {
    if |db.ledger| == 0 || EventIdUsed(db.ledger, eventId) then Rejected
    else Ok(db.(ledger := db.ledger + [SignedRow(NextEvent(db.ledger, eventId, kind, op, install, keyId, signedBy, details, at), privateKeyOf)]))
  }

  /** Primary key and the one-active-row-per-installation index. */
  function InsertKeyRow(db: Db, id: KeyId, row: KeyRow): Result<Db> {
    if id in db.keyRows
       || (row.status == Active && exists k | k in db.keyRows :: db.keyRows[k].status == Active && db.keyRows[k].installId == row.installId)
    then Rejected
    else Ok(db.(keyRows := db.keyRows[id := row]))
  }

  function SetKeyStatus(db: Db, id: KeyId, status: KeyStatus): Db {
    if id in db.keyRows then db.(keyRows := db.keyRows[id := db.keyRows[id].(status := status)]) else db
  }

  /** Replay the local ledger and move the anchor to its head. */
  function ReplayAndAdvance(db: Db, op: OperatorId, now: int): (r: Result<Db>)
    ensures r.Ok? ==> Accepted(db.ledger, op) && r.value.ledger == db.ledger && r.value.anchor.Some?
  {
    if !Accepted(db.ledger, op) then Rejected
    else Advance(db, ChainOf(db.ledger, op, None), now)
  }

  /** Issue a checkpoint at the local head that continues the pinned one, and pin it. */
  function CheckpointAndPin(db: Db, op: OperatorId, signer: KeyId, privateKeyOf: Bytes, ttl: int, issued: int, now: int): (r: Result<Db>)
    ensures r.Ok? ==> |db.ledger| > 0 && r.value.ledger == db.ledger && r.value.anchor.Some? && r.value.anchor.value.checkpoint.Some?
  {
    var anchor :- WritableAnchor(db);
    var c :- NewCheckpoint(db.ledger, op, signer, privateKeyOf, issued, ttl, anchor.checkpointSha);
    PinLocal(db, c, now, true)
  }

  function PinAll(db: Db, items: seq<Checkpoint>, now: int): Result<Db>
    decreases |items|
  {
    if items == [] then Ok(db)
    else
      var next :- PinLocal(db, items[0], now, false);
      PinAll(next, items[1..], now)
  }

  // ---------- ceremonies on an enrolled machine ----------

  /** Times: t0 creation, t1 checkpoint, t2 anchor. */
  function Enroll(db: Db, op: OperatorId, store: StoreId, install: InstallId, key: NewKey, recovery: Option<KeyBinding>,
                  eventId: string, t0: int, t1: int, t2: int): Result<Db>
  {
    if db.ledger != [] then Rejected
    else
      var genesis := Genesis(1, eventId, Enrollment, op, install, key.keyId, t0, None, store, key.publicKey,
                             FingerprintDigest(key.publicKey), key.nonce, key.blob, recovery, None);
      var ledgered := db.(ledger := [SignedRow(genesis, key.publicKey)]);
      var keyed :- InsertKeyRow(ledgered, key.keyId, KeyRow(install, store, key.publicKey, Active, 1, key.blob));
      :- Check(Accepted(keyed.ledger, op));
      var c :- NewCheckpoint(keyed.ledger, op, key.keyId, key.publicKey, t1, DAY_SECONDS, None);
      Establish(keyed, ChainOf(keyed.ledger, op, None),
                if recovery.Some? then Some(recovery.value.keyId) else None,
                if recovery.Some? then Some(recovery.value.publicKey) else None, Some(c), [], t2)
  }

  ghost function CreateCheckpoint(db: Db, op: OperatorId, ttl: int, issued: int, now: int): Result<Db> {
    var signer :- SigningKey(db, op);
    CheckpointAndPin(db, op, signer, db.keyRows[signer].publicKey, ttl, issued, now)
  }

  /** The write transaction of a rotation, with the key opened before it: the active
      row is checked again. */
  ghost function RotateWrite(db: Db, op: OperatorId, signer: KeyId, row: KeyRow, key: NewKey, eventId: string, at: int, now: int): Result<Db> {
    var current :- ActiveBinding(db);
    :- Check(current == signer);
    var details := KeyDetails(BindingOf(key, row.installId), Some(key.blob), None, Some(signer), None);
    var appended :- AppendEvent(db, eventId, KeyRotated, op, row.installId, key.keyId, signer, row.publicKey, details, at);
    var retired := SetKeyStatus(appended, signer, Retired);
    var keyed :- InsertKeyRow(retired, key.keyId, KeyRow(row.installId, row.store, key.publicKey, Active, |appended.ledger|, key.blob));
    ReplayAndAdvance(keyed, op, now)
  }

  /** The active key signs its successor; the old row retires with it. */
  ghost function Rotate(db: Db, op: OperatorId, key: NewKey, eventId: string, at: int, now: int): Result<Db> {
    var signer :- SigningKey(db, op);
    RotateWrite(db, op, signer, db.keyRows[signer], key, eventId, at, now)
  }

  function AuthorizationFor(request: PairingRequest, op: OperatorId, store: StoreId, head: Digest): Authorization {
    Authorization(op, store, request.binding.installId, request.binding.keyId, request.binding.publicKey, request.nonce,
                  RequestDigest(request), head, request.expiresAt)
  }

  /** A request this machine may certify with the key it has opened. */
  predicate RequestCurrent(op: OperatorId, row: KeyRow, request: PairingRequest, at: int) {
    request.operator == op && at < request.expiresAt && request.store == row.store
  }

  function AuthorizeWrite(db: Db, op: OperatorId, signer: KeyId, row: KeyRow, request: PairingRequest, eventId: string,
                          at: int, issued: int, now: int): Result<(Db, Package)>
  {
    var anchor :- WritableAnchor(db);
    :- Check(request.expectedSequence == anchor.pinnedSequence + 1);
    var details := KeyDetails(request.binding, Some(request.blob),
                              Some(AuthorizationFor(request, op, row.store, anchor.pinnedHead)), None, None);
    var appended :- AppendEvent(db, eventId, InstallationPaired, op, request.binding.installId, request.binding.keyId,
                                signer, row.publicKey, details, at);
    var advanced :- ReplayAndAdvance(appended, op, now);
    var pinned :- CheckpointAndPin(advanced, op, signer, row.publicKey, DAY_SECONDS, issued, now);
    Ok((pinned, Package(request, TransportFrom(pinned, op, row.store), HeadSha(pinned.ledger))))
  }

  /** An active machine certifies the target's key and packs its ledger. */
  ghost function AuthorizePairing(db: Db, op: OperatorId, request: PairingRequest, eventId: string,
                                  at: int, issued: int, now: int): Result<(Db, Package)>
  {
    var signer :- SigningKey(db, op);
    :- Check(RequestCurrent(op, db.keyRows[signer], request, at));
    AuthorizeWrite(db, op, signer, db.keyRows[signer], request, eventId, at, issued, now)
  }

  function TransportFrom(db: Db, op: OperatorId, store: StoreId): Transport
    requires |db.ledger| > 0 && db.anchor.Some? && db.anchor.value.checkpoint.Some?
  {
    Transport(op, store, db.ledger[0].sha, db.ledger, HistoryOf(db.pins), db.anchor.value.checkpoint.value)
  }

  function RecoveryWrite(db: Db, op: OperatorId, signer: KeyId, row: KeyRow, recovery: KeyBinding, eventId: string,
                         at: int, issued: int, now: int): Result<(Db, Bundle)>
  {
    var anchor :- WritableAnchor(db);
    var appended :- AppendEvent(db, eventId, RecoveryCreated, op, recovery.installId, recovery.keyId, signer, row.publicKey,
                                KeyDetails(recovery, None, None, None, None), at);
    :- Check(Accepted(appended.ledger, op));
    var pinned :- CheckpointAndPin(appended, op, signer, row.publicKey, DAY_SECONDS, issued, now);
    var bundle := Bundle(op, row.store, pinned.ledger[0].sha, pinned.ledger,
                         HistoryOf(db.pins) + [pinned.anchor.value.checkpoint.value],
                         |pinned.ledger|, HeadSha(pinned.ledger), recovery.keyId, recovery.publicKey,
                         signer, row.installId, row.publicKey);
    Ok((pinned.(anchor := Some(pinned.anchor.value.(recoveryKey := Some(recovery.keyId),
                                                    recoveryPublicKey := Some(recovery.publicKey), updatedAt := at))),
        bundle))
  }

  /** A new recovery key is certified, its bundle published, and the anchor names it. */
  ghost function CreateRecovery(db: Db, op: OperatorId, recovery: KeyBinding, eventId: string,
                                at: int, issued: int, now: int): Result<(Db, Bundle)>
  {
    var signer :- SigningKey(db, op);
    RecoveryWrite(db, op, signer, db.keyRows[signer], recovery, eventId, at, issued, now)
  }

  const COMPROMISE_HOLD: string := "compromise-security-hold"

  datatype StateRequest = StateRequest(
    target: KeyId, compromised: bool, reason: string, effectiveAt: int, compromisedAt: Option<int>,
    replacement: Option<KeyId>, evidence: seq<Digest>)

  /** Who signs a key-state change: the recovery key when a bundle is supplied, else the local key. */
  ghost function StateSigner(db: Db, op: OperatorId, q: StateRequest, bundle: Option<Bundle>): Result<(KeyId, Bytes)> {
    if bundle.Some? then
      :- Check(BundleOk(bundle.value));
      :- Check(IsActive(KeysAfter(db.ledger), bundle.value.recoveryKey));
      Ok((bundle.value.recoveryKey, bundle.value.recoveryPublicKey))
    else
      var local :- ActiveBinding(db);
      :- Check(!(q.compromised && local == q.target));
      var signer :- SigningKey(db, op);
      Ok((signer, db.keyRows[signer].publicKey))
  }

  function StateKind(q: StateRequest, kind: KeyKind): EventKind {
    if q.compromised then KeyCompromised else if kind == Recovery then RecoveryRevoked else KeyRevoked
  }

  function StateDetailsFor(q: StateRequest, install: InstallId): Details {
    StateDetails(q.target, q.effectiveAt,
                 if q.compromised && q.compromisedAt == None then Some(q.effectiveAt) else q.compromisedAt,
                 q.reason, q.replacement, [install], q.evidence, [q.target])
  }

  /** The write transaction of a key-state change, with the target and the signer read before it. */
  function StateWrite(db: Db, op: OperatorId, q: StateRequest, kind: KeyKind, install: InstallId, signer: (KeyId, Bytes),
                      eventId: string, proofId: string, at: int, now: int): Result<Db>
  {
    var appended :- AppendEvent(db, eventId, StateKind(q, kind), op, install, q.target, signer.0, signer.1,
                                StateDetailsFor(q, install), at);
    var marked := SetKeyStatus(appended, q.target, if q.compromised then Compromised else Revoked);
    var advanced :- ReplayAndAdvance(marked, op, now);
    if q.compromised
    then Retain(advanced, proofId, COMPROMISE_HOLD, ProofDigest(advanced.ledger[|advanced.ledger| - 1]), now)
    else Ok(advanced)
  }

  /** Revocation, or compromise, which also retains a proof and blocks further writes. */
  ghost function ChangeKeyState(db: Db, op: OperatorId, q: StateRequest, bundle: Option<Bundle>, eventId: string,
                                proofId: string, at: int, now: int): Result<Db>
  {
    if Blank(q.reason) || !Accepted(db.ledger, op) || !IsActive(KeysAfter(db.ledger), q.target) then Rejected
    else
      var target := KeysAfter(db.ledger)[q.target];
      var signer :- StateSigner(db, op, q, bundle);
      StateWrite(db, op, q, target.kind, target.installId, signer, eventId, proofId, at, now)
  }

  /** What an adjudication has read when its write begins. */
  datatype Decision = Decision(
    proofId: string, chosen: Digest, candidateSha: Digest, reason: string, signer: KeyId, install: InstallId, signerKey: Bytes)

  /** The read: a pending conflict, an active recovery key, and the pinned checkpoint as the choice. */
  function ReadConflict(db: Db, op: OperatorId, proofId: string, chosen: Digest, reason: string, bundle: Bundle): Result<Decision> {
    if !BundleOk(bundle) || db.anchor == None || !db.anchor.value.Blocked() || proofId !in db.proofs then Rejected
    else
      :- Check(db.proofs[proofId].adjudication == None);
      :- Check(Accepted(db.ledger, op));
      var keys, signer := KeysAfter(db.ledger), bundle.recoveryKey;
      :- Check(IsActive(keys, signer) && keys[signer].kind == Recovery);
      :- Check(db.anchor.value.checkpointSha == Some(chosen));
      Ok(Decision(proofId, chosen, db.proofs[proofId].candidateSha, reason, signer, keys[signer].installId, bundle.recoveryPublicKey))
  }

  /** The write: append, replay, record the decision and open writes, without looking at the conflict again. */
  function DecisionWrite(db: Db, op: OperatorId, d: Decision, eventId: string, at: int): Result<Db> {
    var details := AdjudicationDetails(d.proofId, d.chosen, d.candidateSha, d.reason, at);
    var appended :- AppendEvent(db, eventId, ConflictAdjudicated, op, d.install, d.signer, d.signer, d.signerKey, details, at);
    :- Check(Accepted(appended.ledger, op));
    Ok(appended.(
      proofs := if d.proofId in db.proofs
                then db.proofs[d.proofId := db.proofs[d.proofId].(adjudication := Some(HeadSha(appended.ledger)))] else db.proofs,
      anchor := if db.anchor == None then None else Some(db.anchor.value.(
        pinnedSequence := |appended.ledger|, pinnedHead := HeadSha(appended.ledger),
        keyStateSha := KeyStateSha(KeysAfter(appended.ledger)), updatedAt := at, blockReason := None))))
  }

  /** Recovery signs the decision on a retained conflict; only then are writes open again. */
  function Adjudicate(db: Db, op: OperatorId, proofId: string, chosen: Digest, reason: string, bundle: Bundle,
                      eventId: string, at: int): Result<Db>
  {
    var d := ReadConflict(db, op, proofId, chosen, reason, bundle);
    if d.Rejected? then Rejected else DecisionWrite(db, op, d.value, eventId, at)
  }

  // ---------- ceremonies on a fresh target ----------

  function Bootstrap(db: Db, op: OperatorId, bundle: Bundle, now: int): Result<Db> {
    if !BundleOk(bundle) || bundle.operator != op || db.ledger != [] then Rejected
    else if db.anchor == None then
      Establish(db, ChainOf(bundle.ledger, bundle.operator, None), Some(bundle.recoveryKey), Some(bundle.recoveryPublicKey),
                Some(bundle.history[|bundle.history| - 1]), bundle.history, now)
    else
      var a := db.anchor.value;
      :- Check(a.operator == op && a.store == bundle.store && a.genesisSha == bundle.genesisSha);
      :- Check(a.recoveryKey == Some(bundle.recoveryKey) && a.recoveryPublicKey == Some(bundle.recoveryPublicKey));
      Ok(db)
  }

  function RequestPairing(db: Db, op: OperatorId, key: NewKey, install: InstallId, requestId: string, at: int): Result<(Db, PairingRequest)> {
    if db.ledger != [] || requestId in db.requests then Rejected
    else
      var anchor :- WritableAnchor(db);
      :- Check(anchor.recoveryKey.Some?);
      var request := PairingRequest(requestId, op, anchor.store, BindingOf(key, install), key.nonce, key.blob, at,
                                    at + DAY_SECONDS * SECOND, anchor.pinnedSequence + 1);
      Ok((db.(requests := db.requests[requestId := PendingRequest(request, false)]), request))
  }

  function RowWithSha(rows: seq<Row>, sha: Digest): (r: Option<Row>)
    ensures r.Some? ==> r.value in rows && r.value.sha == sha
  {
    if rows == [] then None
    else if rows[|rows| - 1].sha == sha then Some(rows[|rows| - 1])
    else RowWithSha(rows[..|rows| - 1], sha)
  }

  predicate DistinctEventIds(rows: seq<Row>) {
    forall i, j | 0 <= i < j < |rows| :: rows[i].columns.eventId != rows[j].columns.eventId
  }

  /** The certificate row binds the pending request at the expected position. */
  predicate CertificateBinds(row: Row, request: PairingRequest) {
    && row.sequence == request.expectedSequence
    && row.event.Lifecycle? && row.event.details.KeyDetails? && row.event.details.authorization.Some?
    && row.event.details.authorization.value.requestSha == RequestDigest(request)
  }

  function KeyRowFor(request: PairingRequest, sequence: int): KeyRow {
    KeyRow(request.binding.installId, request.store, request.binding.publicKey, Active, sequence, request.blob)
  }

  /** The package answers a request this target made and still has open. */
  predicate PackageExpected(db: Db, package: Package, anchor: Anchor) {
    && package.request.requestId in db.requests
    && db.requests[package.request.requestId] == PendingRequest(package.request, false)
    && package.transport.ledger != []
    && package.transport.ledger[0].sha == anchor.genesisSha
    && package.transport.store == anchor.store
  }

  function FinalizePairing(db: Db, op: OperatorId, package: Package, now: int): Result<Db> {
    if !TransportOk(package.transport, now) then Rejected
    else
      var anchor :- WritableAnchor(db);
      :- Check(PackageExpected(db, package, anchor));
      :- Check(anchor.checkpointSha.Some?);
      CarryPackage(db, op, package, anchor.checkpointSha.value, now)
  }

  /** Insert the carried ledger, pin the checkpoints after the known one, take the
      pending key into use and replay. */
  function CarryPackage(db: Db, op: OperatorId, package: Package, known: Digest, now: int): Result<Db> {
    if db.ledger != [] || !DistinctEventIds(package.transport.ledger) then Rejected
    else
      var request := package.request;
      var start := IndexOf(package.transport.history, known);
      :- Check(start.Some?);
      var pinned :- PinAll(db.(ledger := package.transport.ledger), package.transport.history[start.value + 1..], now);
      var certificate := RowWithSha(package.transport.ledger, package.certificateSha);
      :- Check(certificate.Some? && CertificateBinds(certificate.value, request));
      var keyed :- InsertKeyRow(pinned, request.binding.keyId, KeyRowFor(request, certificate.value.sequence));
      var advanced :- ReplayAndAdvance(keyed, op, now);
      Ok(advanced.(requests := advanced.requests[request.requestId := PendingRequest(request, true)]))
  }

  /** The offline credential is active on the transported ledger and is the one this target pinned. */
  predicate RecoveryTrusted(db: Db, op: OperatorId, bundle: Bundle, transport: Transport) {
    && bundle.history != []
    && bundle.operator == op
    && transport.operator == op && transport.store == bundle.store && transport.genesisSha == bundle.genesisSha
    && var keys := KeysAfter(transport.ledger);
    && IsActive(keys, bundle.recoveryKey) && keys[bundle.recoveryKey].kind == Recovery
    && keys[bundle.recoveryKey].publicKey == bundle.recoveryPublicKey
    && db.anchor.Some?
    && var a := db.anchor.value;
    && a.operator == op && a.store == bundle.store && a.genesisSha == bundle.genesisSha
    && a.recoveryKey == Some(bundle.recoveryKey) && a.recoveryPublicKey == Some(bundle.recoveryPublicKey)
    && a.checkpointSha == Some(CheckpointDigest(bundle.history[|bundle.history| - 1]))
  }

  function RestoreDetails(bundle: Bundle, transport: Transport, replaced: Option<InstallId>, key: NewKey, install: InstallId): Details
    requires |transport.ledger| > 0
  {
    var authorization := Authorization(bundle.operator, bundle.store, install, key.keyId, key.publicKey, key.nonce,
                                       TextDigest(key.nonce), HeadSha(transport.ledger), transport.checkpoint.body.expiresAt);
    KeyDetails(BindingOf(key, install), Some(key.blob), Some(authorization), None, replaced)
  }

  /** Recovery signs a certificate for a new machine on top of a fresh transport. */
  function Recover(db: Db, op: OperatorId, bundle: Bundle, transport: Transport, replaced: Option<InstallId>,
                   key: NewKey, install: InstallId, eventId: string, at: int, now: int): Result<Db>
  {
    if !BundleOk(bundle) || !TransportOk(transport, now) || !RecoveryTrusted(db, op, bundle, transport) then Rejected
    else
      :- Check(db.ledger == [] && DistinctEventIds(transport.ledger) && |transport.ledger| > 0);
      var carried := db.(ledger := transport.ledger);
      var appended :- AppendEvent(carried, eventId, if replaced.Some? then InstallationRebound else InstallationPaired, op,
                                  install, key.keyId, bundle.recoveryKey, bundle.recoveryPublicKey,
                                  RestoreDetails(bundle, transport, replaced, key, install), at);
      var keyed :- InsertKeyRow(appended, key.keyId, KeyRow(install, bundle.store, key.publicKey, Active, |appended.ledger|, key.blob));
      :- Check(Accepted(keyed.ledger, op) && |keyed.ledger| > 0 && StoreOf(keyed.ledger) == bundle.store);
      var start := IndexOf(transport.history, CheckpointDigest(bundle.history[|bundle.history| - 1]));
      :- Check(start.Some?);
      var pinned :- PinAll(keyed, transport.history[start.value + 1..], now);
      :- Check(pinned.anchor.Some?);
      Ok(pinned.(anchor := Some(pinned.anchor.value.(
        pinnedSequence := |keyed.ledger|, pinnedHead := HeadSha(keyed.ledger),
        keyStateSha := KeyStateSha(KeysAfter(keyed.ledger)), updatedAt := at))))
  }
}
