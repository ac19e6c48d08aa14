/** What every committed ceremony keeps on a machine, over whole runs. */
module ServiceRuns {
  import opened Outcomes
  import opened AuthorityData
  import opened AuthorityLedger
  import opened LedgerHistory
  import opened AuthorityTrust
  import opened AuthorityService

  // ---------- the ceremony invariant ----------

  /** The anchor names exactly the head of the replayed local ledger. */
  ghost predicate AnchoredAtHead(ledger: seq<Row>, anchor: Option<Anchor>, op: OperatorId) {
    && Accepted(ledger, op)
    && |ledger| > 0
    && anchor.Some?
    && var a := anchor.value;
    && a.operator == op && a.store == StoreOf(ledger) && a.genesisSha == ledger[0].sha
    && a.pinnedSequence == |ledger| && a.pinnedHead == HeadSha(ledger)
    && a.keyStateSha == KeyStateSha(KeysAfter(ledger))
  }

  ghost predicate AtMostOneActive(keyRows: map<KeyId, KeyRow>) {
    forall a, b | a in ActiveRows(keyRows) && b in ActiveRows(keyRows) :: a == b
  }

  function Open(proofs: map<string, Proof>): set<string> {
    set id | id in proofs && proofs[id].adjudication == None
  }

  /** Writes are blocked exactly when one retained proof awaits adjudication. */
  ghost predicate HoldMatches(anchor: Option<Anchor>, proofs: map<string, Proof>) {
    && anchor.Some?
    && (anchor.value.Blocked() ==> exists id :: Open(proofs) == {id})
    && (!anchor.value.Blocked() ==> Open(proofs) == {})
  }

  ghost predicate Coherent(db: Db, op: OperatorId) {
    && AnchoredAtHead(db.ledger, db.anchor, op)
    && RowsAgree(db.ledger, db.keyRows)
    && AtMostOneActive(db.keyRows)
    && HoldMatches(db.anchor, db.proofs)
  }

  // ---------- one ceremony at a time ----------

  lemma AppendedFacts(db: Db, row: Row, op: OperatorId)
    requires Accepted(db.ledger, op) && |db.ledger| > 0 && Accepted(db.ledger + [row], op)
    ensures Admissible(KeysAfter(db.ledger), row.event, op, StoreOf(db.ledger))
    ensures KeysAfter(db.ledger + [row]) == Apply(KeysAfter(db.ledger), row.event, |db.ledger| + 1, row.sha)
    ensures StoreOf(db.ledger + [row]) == StoreOf(db.ledger)
    ensures HeadSha(db.ledger + [row]) == row.sha
    ensures SignerOk(KeysAfter(db.ledger), row)
  {
    hide Admissible, Apply;
    var rows := db.ledger + [row];
    assert rows[..|rows| - 1] == db.ledger;
  }

  /** After a successful advance the anchor is at the head of its ledger. */
  lemma AdvancedAtHead(db: Db, op: OperatorId, now: int)
    requires ReplayAndAdvance(db, op, now).Ok?
    ensures var r := ReplayAndAdvance(db, op, now).value;
      && AnchoredAtHead(r.ledger, r.anchor, op)
      && r.ledger == db.ledger && r.keyRows == db.keyRows && r.proofs == db.proofs && r.tickets == db.tickets
      && r.pins == db.pins && r.requests == db.requests
      && db.anchor.Some? && !db.anchor.value.Blocked() && !r.anchor.value.Blocked()
      && r.anchor.value.checkpointSha == db.anchor.value.checkpointSha && r.anchor.value.checkpoint == db.anchor.value.checkpoint
      && r.anchor.value.recoveryKey == db.anchor.value.recoveryKey
      && r.anchor.value.store == db.anchor.value.store && r.anchor.value.genesisSha == db.anchor.value.genesisSha
  {
    hide Accepted, KeysAfter;
    AcceptedGenesis(db.ledger, op);
  }

  /** Pinning a checkpoint issued at the head puts the anchor there. */
  lemma PinnedAtHead(db: Db, op: OperatorId, signer: KeyId, privateKeyOf: Bytes, ttl: int, issued: int, now: int)
    requires CheckpointAndPin(db, op, signer, privateKeyOf, ttl, issued, now).Ok?
    requires Accepted(db.ledger, op) && db.anchor.Some? && db.anchor.value.operator == op
    ensures |db.ledger| > 0
    ensures var r := CheckpointAndPin(db, op, signer, privateKeyOf, ttl, issued, now).value;
      && r.ledger == db.ledger && r.keyRows == db.keyRows && r.proofs == db.proofs && r.requests == db.requests
      && !db.anchor.value.Blocked() && r.anchor.Some? && !r.anchor.value.Blocked()
      && (db.anchor.value.store == StoreOf(db.ledger) ==> AnchoredAtHead(r.ledger, r.anchor, op))
      && r.anchor.value.checkpoint.Some?
      && r.anchor.value.checkpointSha == Some(CheckpointDigest(r.anchor.value.checkpoint.value))
      && r.pins == db.pins + [Pin(CheckpointDigest(r.anchor.value.checkpoint.value), r.anchor.value.checkpoint.value, now)]
  {
    hide Accepted, KeysAfter, KeyStateSha;
    AcceptedGenesis(db.ledger, op);
    var c := NewCheckpoint(db.ledger, op, signer, privateKeyOf, issued, ttl, db.anchor.value.checkpointSha).value;
    assert PinLocal(db, c, now, true).Ok?;
  }

  lemma SigningKeyFacts(db: Db, op: OperatorId)
    requires SigningKey(db, op).Ok?
    ensures var id := SigningKey(db, op).value;
      && ActiveRows(db.keyRows) == {id}
      && db.anchor.Some? && !db.anchor.value.Blocked()
      && Accepted(db.ledger, op) && RowsAgree(db.ledger, db.keyRows)
      && IsActive(KeysAfter(db.ledger), id) && KeysAfter(db.ledger)[id].kind == Installation
  {
    hide Accepted, KeysAfter, RowsAgree;
  }

  /** Rows of keys the new event does not touch still agree. */
  lemma RowStillAgrees(db: Db, row: Row, op: OperatorId, id: KeyId)
    requires Accepted(db.ledger, op) && |db.ledger| > 0 && Accepted(db.ledger + [row], op)
    requires id in db.keyRows && RowAgrees(db.ledger, KeysAfter(db.ledger), id, db.keyRows[id])
    requires id in KeysAfter(db.ledger + [row]) && KeysAfter(db.ledger + [row])[id].status == db.keyRows[id].status
    ensures RowAgrees(db.ledger + [row], KeysAfter(db.ledger + [row]), id, db.keyRows[id])
  {
    hide Admissible, Apply, KeysAfter, Accepted;
    AppendedFacts(db, row, op);
    ApplyEvolves(KeysAfter(db.ledger), row.event, |db.ledger| + 1, row.sha, op, StoreOf(db.ledger));
  }

  /** Rows agree after an event that leaves every local key's status alone. */
  lemma RowsStillAgree(db: Db, row: Row, op: OperatorId)
    requires Accepted(db.ledger, op) && |db.ledger| > 0 && Accepted(db.ledger + [row], op) && RowsAgree(db.ledger, db.keyRows)
    requires forall id | id in db.keyRows ::
      id in KeysAfter(db.ledger) && id in KeysAfter(db.ledger + [row]) && KeysAfter(db.ledger + [row])[id].status == KeysAfter(db.ledger)[id].status
    ensures RowsAgree(db.ledger + [row], db.keyRows)
  {
    hide KeysAfter, Accepted;
    forall id | id in db.keyRows
      ensures RowAgrees(db.ledger + [row], KeysAfter(db.ledger + [row]), id, db.keyRows[id])
    {
      assert RowAgrees(db.ledger, KeysAfter(db.ledger), id, db.keyRows[id]);
      RowStillAgrees(db, row, op, id);
    }
  }

  lemma CheckpointKeeps(db: Db, r: Db, op: OperatorId, ttl: int, issued: int, now: int)
    requires Coherent(db, op) && CreateCheckpoint(db, op, ttl, issued, now) == Ok(r)
    ensures Coherent(r, op) && r.ledger == db.ledger && r.keyRows == db.keyRows && r.proofs == db.proofs && !db.anchor.value.Blocked()
  {
    hide Accepted, KeysAfter, RowAgrees;
    SigningKeyFacts(db, op);
    var signer := SigningKey(db, op).value;
    PinnedAtHead(db, op, signer, db.keyRows[signer].publicKey, ttl, issued, now);
  }

  function RotationRow(db: Db, op: OperatorId, signer: KeyId, local: KeyRow, key: NewKey, eventId: string, at: int): Row
    requires |db.ledger| > 0
  {
    SignedRow(NextEvent(db.ledger, eventId, KeyRotated, op, local.installId, key.keyId, signer,
                        KeyDetails(BindingOf(key, local.installId), Some(key.blob), None, Some(signer), None), at),
              local.publicKey)
  }

  function Rotated(db: Db, signer: KeyId, key: NewKey, row: Row): Db
    requires signer in db.keyRows
  {
    var local := db.keyRows[signer];
    db.(ledger := db.ledger + [row],
        keyRows := db.keyRows[signer := local.(status := Retired)]
                   [key.keyId := KeyRow(local.installId, local.store, key.publicKey, Active, |db.ledger| + 1, key.blob)])
  }

  lemma RotateSteps(db: Db, op: OperatorId, key: NewKey, eventId: string, at: int, now: int) returns (signer: KeyId, row: Row)
    requires Rotate(db, op, key, eventId, at, now).Ok?
    ensures |db.ledger| > 0 && ActiveRows(db.keyRows) == {signer} && key.keyId !in db.keyRows && signer in db.keyRows
    ensures row == RotationRow(db, op, signer, db.keyRows[signer], key, eventId, at)
    ensures Rotate(db, op, key, eventId, at, now) == ReplayAndAdvance(Rotated(db, signer, key, row), op, now)
  {
    hide Accepted, KeysAfter, RowAgrees, ReplayAndAdvance;
    SigningKeyFacts(db, op);
    signer := SigningKey(db, op).value;
    row := RotationRow(db, op, signer, db.keyRows[signer], key, eventId, at);
  }

  lemma RotateKeeps(db: Db, r: Db, op: OperatorId, key: NewKey, eventId: string, at: int, now: int)
    requires Coherent(db, op) && Rotate(db, op, key, eventId, at, now) == Ok(r)
    ensures Coherent(r, op) && r.proofs == db.proofs && !db.anchor.value.Blocked()
    ensures GrownByOne(db, r) && RotatesInstallationAt(r.ledger, |r.ledger|)
    ensures ActiveRows(r.keyRows) == {key.keyId}
  {
    hide Rotate, ReplayAndAdvance, AnchoredAtHead, RowsAgree, Accepted, KeysAfter;
    var signer, row := RotateSteps(db, op, key, eventId, at, now);
    var rotated := Rotated(db, signer, key, row);
    AdvancedAtHead(rotated, op, now);
    AnchoredLedger(db, op);
    AnchoredLedger(r, op);
    RotatedRowsAgree(db, op, signer, key, row, rotated);
    RotationNamesInstallation(db, op, key, eventId, at, now, signer);
    assert r.ledger[..|r.ledger| - 1] == db.ledger;
  }

  lemma RotationNamesInstallation(db: Db, op: OperatorId, key: NewKey, eventId: string, at: int, now: int, signer: KeyId)
    requires Rotate(db, op, key, eventId, at, now).Ok? && ActiveRows(db.keyRows) == {signer}
    ensures signer in KeysAfter(db.ledger) && KeysAfter(db.ledger)[signer].kind == Installation
  {
    hide Accepted, KeysAfter, RowAgrees, ReplayAndAdvance;
    SigningKeyFacts(db, op);
    assert SigningKey(db, op).value in ActiveRows(db.keyRows);
  }

  lemma RotatedRowsAgree(db: Db, op: OperatorId, signer: KeyId, key: NewKey, row: Row, keyed: Db)
    requires Accepted(db.ledger, op) && |db.ledger| > 0 && RowsAgree(db.ledger, db.keyRows)
    requires Accepted(db.ledger + [row], op)
    requires ActiveRows(db.keyRows) == {signer} && key.keyId !in db.keyRows
    requires row.event.Lifecycle? && row.event.kind == KeyRotated
    requires row.event.details == KeyDetails(BindingOf(key, db.keyRows[signer].installId), Some(key.blob), None, Some(signer), None)
    requires keyed == Rotated(db, signer, key, row)
    ensures RowsAgree(keyed.ledger, keyed.keyRows)
    ensures ActiveRows(keyed.keyRows) == {key.keyId}
  {
    hide Accepted, KeysAfter, Admissible;
    AppendedFacts(db, row, op);
    var keys := KeysAfter(db.ledger);
    forall id | id in keyed.keyRows
      ensures RowAgrees(keyed.ledger, KeysAfter(keyed.ledger), id, keyed.keyRows[id])
    {
      if id in db.keyRows {
        assert RowAgrees(db.ledger, keys, id, db.keyRows[id]);
      }
    }
  }

  function PairingRow(db: Db, op: OperatorId, signer: KeyId, local: KeyRow, request: PairingRequest, eventId: string, at: int): Row
    requires |db.ledger| > 0 && db.anchor.Some?
  {
    SignedRow(NextEvent(db.ledger, eventId, InstallationPaired, op, request.binding.installId, request.binding.keyId, signer,
                        KeyDetails(request.binding, Some(request.blob),
                                   Some(AuthorizationFor(request, op, local.store, db.anchor.value.pinnedHead)), None, None), at),
              local.publicKey)
  }

  /** The intermediate states of a committed authorization. */
  lemma AuthorizeSteps(db: Db, op: OperatorId, request: PairingRequest, eventId: string, at: int, issued: int, now: int)
    returns (signer: KeyId, row: Row)
    requires AuthorizePairing(db, op, request, eventId, at, issued, now).Ok?
    ensures signer in db.keyRows && |db.ledger| > 0 && db.anchor.Some?
    ensures row == PairingRow(db, op, signer, db.keyRows[signer], request, eventId, at)
    ensures request.store == db.keyRows[signer].store
    ensures request.expectedSequence == db.anchor.value.pinnedSequence + 1
    ensures ReplayAndAdvance(db.(ledger := db.ledger + [row]), op, now).Ok?
    ensures var advanced := ReplayAndAdvance(db.(ledger := db.ledger + [row]), op, now).value;
      && CheckpointAndPin(advanced, op, signer, db.keyRows[signer].publicKey, DAY_SECONDS, issued, now).Ok?
      && var pinned := CheckpointAndPin(advanced, op, signer, db.keyRows[signer].publicKey, DAY_SECONDS, issued, now).value;
      && |pinned.ledger| > 0
      && AuthorizePairing(db, op, request, eventId, at, issued, now).value ==
         (pinned, Package(request, TransportFrom(pinned, op, request.store), HeadSha(pinned.ledger)))
  {
    hide Accepted, KeysAfter, RowAgrees, Admissible, CheckpointAndPin, ReplayAndAdvance, TransportFrom;
    SigningKeyFacts(db, op);
    signer := SigningKey(db, op).value;
    row := PairingRow(db, op, signer, db.keyRows[signer], request, eventId, at);
  }

  predicate GrownByOne(db: Db, r: Db) {
    |r.ledger| == |db.ledger| + 1 && db.ledger == r.ledger[..|db.ledger|]
  }

  /** The ledger ends with the certificate of exactly the requested key, which is active. */
  ghost predicate KeyRequested(rows: seq<Row>, request: PairingRequest) {
    && |rows| == request.expectedSequence
    && |rows| > 0
    && var keys := KeysAfter(rows); var id := request.binding.keyId;
    && IsActive(keys, id)
    && keys[id].publicKey == request.binding.publicKey
    && keys[id].installId == request.binding.installId
    && keys[id].certSequence == |rows|
    && CertificateBlob(rows[|rows| - 1].event) == Some(request.blob)
  }

  /** The key map after an authorization has gained exactly the requested key. */
  lemma PairingRowFacts(db: Db, op: OperatorId, signer: KeyId, request: PairingRequest, eventId: string, at: int, row: Row)
    requires AnchoredAtHead(db.ledger, db.anchor, op) && RowsAgree(db.ledger, db.keyRows) && signer in db.keyRows
    requires row == PairingRow(db, op, signer, db.keyRows[signer], request, eventId, at)
    requires Accepted(db.ledger + [row], op)
    requires request.expectedSequence == |db.ledger| + 1
    ensures KeyRequested(db.ledger + [row], request)
    ensures row.event.details.authorization.value.store == StoreOf(db.ledger)
    ensures RowsAgree(db.ledger + [row], db.keyRows)
  {
    hide Accepted, KeysAfter, RowAgrees;
    AppendedFacts(db, row, op);
    NewKeyLeavesOthers(KeysAfter(db.ledger), row, |db.ledger| + 1, op, StoreOf(db.ledger));
    KeptRows(db, row, op);
  }

  /** Certifying a new key leaves the local rows in agreement. */
  lemma KeptRows(db: Db, row: Row, op: OperatorId)
    requires Accepted(db.ledger, op) && |db.ledger| > 0 && Accepted(db.ledger + [row], op) && RowsAgree(db.ledger, db.keyRows)
    requires row.event.kind == InstallationPaired || row.event.kind == RecoveryCreated
    ensures RowsAgree(db.ledger + [row], db.keyRows)
  {
    hide Accepted, KeysAfter, RowAgrees, Admissible, Apply;
    AppendedFacts(db, row, op);
    NewKeyLeavesOthers(KeysAfter(db.ledger), row, |db.ledger| + 1, op, StoreOf(db.ledger));
    forall id | id in db.keyRows
      ensures id in KeysAfter(db.ledger) && id in KeysAfter(db.ledger + [row]) && KeysAfter(db.ledger + [row])[id].status == KeysAfter(db.ledger)[id].status
    {
      RowIsInKeys(db, id);
    }
    RowsStillAgree(db, row, op);
  }

  lemma AuthorizeKeeps(db: Db, r: Db, package: Package, op: OperatorId, request: PairingRequest, eventId: string, at: int, issued: int, now: int)
    requires Coherent(db, op) && AuthorizePairing(db, op, request, eventId, at, issued, now) == Ok((r, package))
    ensures Coherent(r, op) && r.proofs == db.proofs && r.keyRows == db.keyRows && !db.anchor.value.Blocked()
    ensures GrownByOne(db, r)
    ensures package.request == request && package.certificateSha == HeadSha(r.ledger)
    ensures package.transport.ledger == r.ledger && package.transport.operator == op && package.transport.store == request.store
    ensures r.anchor.value.checkpointSha == Some(CheckpointDigest(package.transport.checkpoint))
    ensures KeyRequested(r.ledger, request) && request.store == StoreOf(r.ledger)
    ensures r.ledger[|db.ledger|].event.kind == InstallationPaired
  {
    hide Accepted, KeysAfter, RowAgrees, AuthorizePairing, CheckpointAndPin, ReplayAndAdvance, KeyRequested, KeyStateSha;
    var signer, row := AuthorizeSteps(db, op, request, eventId, at, issued, now);
    var appended := db.(ledger := db.ledger + [row]);
    AdvancedAtHead(appended, op, now);
    var advanced := ReplayAndAdvance(appended, op, now).value;
    PinnedAtHead(advanced, op, signer, db.keyRows[signer].publicKey, DAY_SECONDS, issued, now);
    PairingRowFacts(db, op, signer, request, eventId, at, row);
    AppendedFacts(db, row, op);
  }

  lemma RowIsInKeys(db: Db, id: KeyId)
    requires RowsAgree(db.ledger, db.keyRows) && id in db.keyRows
    ensures id in KeysAfter(db.ledger)
  {
    hide KeysAfter;
    assert RowAgrees(db.ledger, KeysAfter(db.ledger), id, db.keyRows[id]);
  }

  /** A pairing or recovery certificate adds one active key and leaves the rest alone. */
  lemma NewKeyLeavesOthers(keys: KeyMap, row: Row, sequence: int, op: OperatorId, store: StoreId)
    requires Admissible(keys, row.event, op, store)
    requires row.event.kind == InstallationPaired || row.event.kind == RecoveryCreated
    ensures var after := Apply(keys, row.event, sequence, row.sha); var b := row.event.details.binding;
      && b.keyId !in keys
      && (forall id | id in keys :: id in after && after[id] == keys[id])
      && b.keyId in after
      && after[b.keyId] == Certify(b, row.event.details.blob, if row.event.kind == RecoveryCreated then Recovery else Installation,
                                   sequence, row.sha, row.event.createdAt)
  {
  }

  function RecoveryRow(db: Db, op: OperatorId, signer: KeyId, local: KeyRow, recovery: KeyBinding, eventId: string, at: int): Row
    requires |db.ledger| > 0
  {
    SignedRow(NextEvent(db.ledger, eventId, RecoveryCreated, op, recovery.installId, recovery.keyId, signer,
                        KeyDetails(recovery, None, None, None, None), at), local.publicKey)
  }

  lemma RecoverySteps(db: Db, op: OperatorId, recovery: KeyBinding, eventId: string, at: int, issued: int, now: int)
    returns (signer: KeyId, row: Row)
    requires CreateRecovery(db, op, recovery, eventId, at, issued, now).Ok?
    ensures signer in db.keyRows && |db.ledger| > 0
    ensures row == RecoveryRow(db, op, signer, db.keyRows[signer], recovery, eventId, at)
    ensures Accepted(db.ledger + [row], op)
    ensures var appended := db.(ledger := db.ledger + [row]);
      && CheckpointAndPin(appended, op, signer, db.keyRows[signer].publicKey, DAY_SECONDS, issued, now).Ok?
      && var pinned := CheckpointAndPin(appended, op, signer, db.keyRows[signer].publicKey, DAY_SECONDS, issued, now).value;
      && CreateRecovery(db, op, recovery, eventId, at, issued, now).value.0 ==
         pinned.(anchor := Some(pinned.anchor.value.(recoveryKey := Some(recovery.keyId),
                                                     recoveryPublicKey := Some(recovery.publicKey), updatedAt := at)))
  {
    hide Accepted, KeysAfter, RowAgrees, Admissible, CheckpointAndPin, HistoryOf;
    SigningKeyFacts(db, op);
    signer := SigningKey(db, op).value;
    row := RecoveryRow(db, op, signer, db.keyRows[signer], recovery, eventId, at);
  }

  lemma RecoveryKeeps(db: Db, r: Db, bundle: Bundle, op: OperatorId, recovery: KeyBinding, eventId: string, at: int, issued: int, now: int)
    requires Coherent(db, op) && CreateRecovery(db, op, recovery, eventId, at, issued, now) == Ok((r, bundle))
    ensures Coherent(r, op) && r.proofs == db.proofs && r.keyRows == db.keyRows && !db.anchor.value.Blocked()
    ensures GrownByOne(db, r)
    ensures r.ledger[|db.ledger|].event.kind == RecoveryCreated
    ensures IsActive(KeysAfter(r.ledger), recovery.keyId) && KeysAfter(r.ledger)[recovery.keyId].kind == Recovery
    ensures r.anchor.value.recoveryKey == Some(recovery.keyId)
  {
    hide Accepted, KeysAfter, RowAgrees, CreateRecovery, CheckpointAndPin;
    var signer, row := RecoverySteps(db, op, recovery, eventId, at, issued, now);
    var appended := db.(ledger := db.ledger + [row]);
    PinnedAtHead(appended, op, signer, db.keyRows[signer].publicKey, DAY_SECONDS, issued, now);
    AppendedFacts(db, row, op);
    NewKeyLeavesOthers(KeysAfter(db.ledger), row, |db.ledger| + 1, op, StoreOf(db.ledger));
    KeptRows(db, row, op);
  }

  // ---------- key-state changes and the security hold ----------

  function StateRow(db: Db, op: OperatorId, q: StateRequest, signer: (KeyId, Bytes), eventId: string, at: int): Row
    requires |db.ledger| > 0 && q.target in KeysAfter(db.ledger)
  {
    var target := KeysAfter(db.ledger)[q.target];
    SignedRow(NextEvent(db.ledger, eventId, StateKind(q, target.kind), op, target.installId, q.target, signer.0,
                        StateDetailsFor(q, target.installId), at), signer.1)
  }

  function Marked(db: Db, q: StateRequest, row: Row): Db {
    SetKeyStatus(db.(ledger := db.ledger + [row]), q.target, if q.compromised then Compromised else Revoked)
  }

  lemma StateSteps(db: Db, op: OperatorId, q: StateRequest, bundle: Option<Bundle>, eventId: string, proofId: string, at: int, now: int)
    returns (signer: (KeyId, Bytes), row: Row)
    requires ChangeKeyState(db, op, q, bundle, eventId, proofId, at, now).Ok?
    ensures |db.ledger| > 0 && q.target in KeysAfter(db.ledger) && Accepted(db.ledger, op)
    ensures row == StateRow(db, op, q, signer, eventId, at)
    ensures ReplayAndAdvance(Marked(db, q, row), op, now).Ok?
    ensures var advanced := ReplayAndAdvance(Marked(db, q, row), op, now).value; var r := ChangeKeyState(db, op, q, bundle, eventId, proofId, at, now).value;
      if q.compromised then
        && proofId !in advanced.proofs
        && r == advanced.(
          proofs := advanced.proofs[proofId := Proof(COMPROMISE_HOLD, ProofDigest(row), None)],
          anchor := Some(advanced.anchor.value.(blockReason := Some(BlockReason(COMPROMISE_HOLD, proofId)), updatedAt := now)))
      else r == advanced
  {
    hide Accepted, KeysAfter, ReplayAndAdvance, StateSigner, StateKind, StateDetailsFor;
    signer := StateSigner(db, op, q, bundle).value;
    row := StateRow(db, op, q, signer, eventId, at);
  }

  /** The signed event marks exactly the target, with the status the local row gets. */
  lemma StateRowFacts(db: Db, op: OperatorId, q: StateRequest, signer: (KeyId, Bytes), eventId: string, at: int, row: Row)
    requires Accepted(db.ledger, op) && |db.ledger| > 0 && q.target in KeysAfter(db.ledger) && RowsAgree(db.ledger, db.keyRows)
    requires row == StateRow(db, op, q, signer, eventId, at) && Accepted(db.ledger + [row], op)
    ensures var keys, after := KeysAfter(db.ledger), KeysAfter(db.ledger + [row]);
      && after.Keys == keys.Keys
      && keys[q.target].status == Active
      && after[q.target].status == (if q.compromised then Compromised else Revoked)
      && forall id | id in keys && id != q.target :: after[id] == keys[id]
    ensures RowsAgree(db.ledger + [row], Marked(db, q, row).keyRows)
  {
    hide Accepted, KeysAfter;
    AppendedFacts(db, row, op);
    var after := KeysAfter(db.ledger + [row]);
    var marked := Marked(db, q, row);
    forall id | id in marked.keyRows
      ensures RowAgrees(marked.ledger, after, id, marked.keyRows[id])
    {
      assert RowAgrees(db.ledger, KeysAfter(db.ledger), id, db.keyRows[id]);
    }
  }

  lemma StateRowKind(db: Db, op: OperatorId, q: StateRequest, signer: (KeyId, Bytes), eventId: string, at: int)
    requires |db.ledger| > 0 && q.target in KeysAfter(db.ledger)
    ensures StateRow(db, op, q, signer, eventId, at).event.kind in {KeyRevoked, KeyCompromised, RecoveryRevoked}
  {
    hide KeysAfter;
  }

  /** Up to the optional hold: the marked tables, replayed and anchored. */
  lemma StateChangeAdvances(db: Db, op: OperatorId, q: StateRequest, signer: (KeyId, Bytes), eventId: string, at: int, row: Row, now: int)
    returns (advanced: Db)
    requires AnchoredAtHead(db.ledger, db.anchor, op) && RowsAgree(db.ledger, db.keyRows) && AtMostOneActive(db.keyRows)
    requires q.target in KeysAfter(db.ledger) && row == StateRow(db, op, q, signer, eventId, at)
    requires ReplayAndAdvance(Marked(db, q, row), op, now).Ok?
    ensures ReplayAndAdvance(Marked(db, q, row), op, now) == Ok(advanced)
    ensures AnchoredAtHead(advanced.ledger, advanced.anchor, op) && RowsAgree(advanced.ledger, advanced.keyRows)
    ensures AtMostOneActive(advanced.keyRows)
    ensures !db.anchor.value.Blocked() && advanced.anchor.Some? && !advanced.anchor.value.Blocked()
    ensures advanced.proofs == db.proofs && advanced.ledger == db.ledger + [row] && row.event.kind != KeyRotated
    ensures !IsActive(KeysAfter(advanced.ledger), q.target)
  {
    hide StateRow, RowsAgree, Accepted, KeysAfter, KeyStateSha, ReplayAndAdvance, AnchoredAtHead;
    AnchoredLedger(db, op);
    var marked := Marked(db, q, row);
    AdvancedAtHead(marked, op, now);
    StateRowKind(db, op, q, signer, eventId, at);
    StateRowFacts(db, op, q, signer, eventId, at, row);
    assert ActiveRows(marked.keyRows) <= ActiveRows(db.keyRows);
    advanced := ReplayAndAdvance(marked, op, now).value;
  }

  lemma StateChangeKeeps(db: Db, r: Db, op: OperatorId, q: StateRequest, bundle: Option<Bundle>, eventId: string, proofId: string, at: int, now: int)
    requires Coherent(db, op) && ChangeKeyState(db, op, q, bundle, eventId, proofId, at, now) == Ok(r)
    ensures Coherent(r, op) && !db.anchor.value.Blocked()
    ensures GrownByOne(db, r) && r.ledger[|db.ledger|].event.kind != KeyRotated
    ensures !IsActive(KeysAfter(r.ledger), q.target)
    ensures r.anchor.value.Blocked() == q.compromised
    ensures (q.compromised ==> Open(r.proofs) == {proofId}) && (!q.compromised ==> r.proofs == db.proofs)
  {
    hide StateRow, AnchoredAtHead, RowsAgree, BlockReason, Accepted, KeysAfter, RowAgrees, ChangeKeyState, ReplayAndAdvance, Marked, AtMostOneActive;
    var signer, row := StateSteps(db, op, q, bundle, eventId, proofId, at, now);
    var advanced := StateChangeAdvances(db, op, q, signer, eventId, at, row, now);
    if q.compromised {
      OpeningOne(advanced.proofs, proofId, COMPROMISE_HOLD, ProofDigest(row));
      BlockingStaysAtHead(advanced, r, op, r.anchor.value.blockReason, now);
    }
  }

  lemma AnchoredLedger(db: Db, op: OperatorId)
    requires AnchoredAtHead(db.ledger, db.anchor, op)
    ensures Accepted(db.ledger, op) && |db.ledger| > 0 && db.anchor.Some?
  {
  }

  /** The row records a decision signed by a recovery key that was active before it. */
  ghost predicate RecoveryDecision(before: seq<Row>, row: Row) {
    && row.event.kind == ConflictAdjudicated
    && SignerOk(KeysAfter(before), row)
    && KeysAfter(before)[row.event.SignerId()].kind == Recovery
  }

  function AdjudicationRow(db: Db, op: OperatorId, proofId: string, chosen: Digest, reason: string, bundle: Bundle, eventId: string, at: int): Row
    requires |db.ledger| > 0 && bundle.recoveryKey in KeysAfter(db.ledger) && proofId in db.proofs
  {
    var signer := bundle.recoveryKey;
    SignedRow(NextEvent(db.ledger, eventId, ConflictAdjudicated, op, KeysAfter(db.ledger)[signer].installId, signer, signer,
                        AdjudicationDetails(proofId, chosen, db.proofs[proofId].candidateSha, reason, at), at),
              bundle.recoveryPublicKey)
  }

  lemma AdjudicationSteps(db: Db, op: OperatorId, proofId: string, chosen: Digest, reason: string, bundle: Bundle, eventId: string, at: int)
    returns (row: Row)
    requires Adjudicate(db, op, proofId, chosen, reason, bundle, eventId, at).Ok?
    ensures |db.ledger| > 0 && Accepted(db.ledger, op) && Accepted(db.ledger + [row], op)
    ensures db.anchor.Some? && db.anchor.value.Blocked() && proofId in Open(db.proofs)
    ensures IsActive(KeysAfter(db.ledger), bundle.recoveryKey) && KeysAfter(db.ledger)[bundle.recoveryKey].kind == Recovery
    ensures row == AdjudicationRow(db, op, proofId, chosen, reason, bundle, eventId, at)
    ensures Adjudicate(db, op, proofId, chosen, reason, bundle, eventId, at).value ==
      db.(ledger := db.ledger + [row],
          proofs := db.proofs[proofId := db.proofs[proofId].(adjudication := Some(row.sha))],
          anchor := Some(db.anchor.value.(
            pinnedSequence := |db.ledger| + 1, pinnedHead := row.sha,
            keyStateSha := KeyStateSha(KeysAfter(db.ledger + [row])), updatedAt := at, blockReason := None)))
  {
    hide Accepted, KeysAfter, BundleOk, KeyStateSha;
    row := AdjudicationRow(db, op, proofId, chosen, reason, bundle, eventId, at);
    assert HeadSha(db.ledger + [row]) == row.sha;
  }

  lemma AdjudicationKeeps(db: Db, r: Db, op: OperatorId, proofId: string, chosen: Digest, reason: string, bundle: Bundle, eventId: string, at: int)
    requires Coherent(db, op) && Adjudicate(db, op, proofId, chosen, reason, bundle, eventId, at) == Ok(r)
    ensures Coherent(r, op) && db.anchor.value.Blocked() && !r.anchor.value.Blocked()
    ensures Open(db.proofs) == {proofId} && Open(r.proofs) == {}
    ensures r.keyRows == db.keyRows && KeysAfter(r.ledger) == KeysAfter(db.ledger)
    ensures GrownByOne(db, r) && RecoveryDecision(db.ledger, r.ledger[|db.ledger|])
    ensures r.ledger[|db.ledger|].event.kind == ConflictAdjudicated
    ensures proofId in r.proofs && r.proofs[proofId].adjudication == Some(r.ledger[|db.ledger|].sha)
  {
    hide Accepted, KeysAfter, RowAgrees, Adjudicate, KeyStateSha, SignerOk;
    var row := AdjudicationSteps(db, op, proofId, chosen, reason, bundle, eventId, at);
    AppendedFacts(db, row, op);
    var id :| Open(db.proofs) == {id};
    assert proofId in {id};
    ClosingOne(db.proofs, proofId, row.sha);
    DecisionKeepsKeys(db, row, op);
  }

  lemma ClosingOne(proofs: map<string, Proof>, id: string, sha: Digest)
    requires id in proofs
    ensures Open(proofs[id := proofs[id].(adjudication := Some(sha))]) == Open(proofs) - {id}
  {
  }

  lemma OpeningOne(proofs: map<string, Proof>, id: string, conflictClass: string, sha: Digest)
    requires id !in proofs
    ensures Open(proofs[id := Proof(conflictClass, sha, None)]) == Open(proofs) + {id}
  {
  }

  /** Recording a block reason does not move the anchor. */
  lemma BlockingStaysAtHead(db: Db, r: Db, op: OperatorId, reason: Option<string>, at: int)
    requires AnchoredAtHead(db.ledger, db.anchor, op) && r.ledger == db.ledger
    requires r.anchor == Some(db.anchor.value.(blockReason := reason, updatedAt := at))
    ensures AnchoredAtHead(r.ledger, r.anchor, op)
  {
    hide Accepted, KeysAfter, KeyStateSha;
  }

  /** A decision changes no key. */
  lemma DecisionKeepsKeys(db: Db, row: Row, op: OperatorId)
    requires Accepted(db.ledger, op) && |db.ledger| > 0 && Accepted(db.ledger + [row], op) && RowsAgree(db.ledger, db.keyRows)
    requires row.event.kind == ConflictAdjudicated
    ensures KeysAfter(db.ledger + [row]) == KeysAfter(db.ledger)
    ensures RowsAgree(db.ledger + [row], db.keyRows)
  {
    hide Accepted, KeysAfter, RowAgrees;
    AppendedFacts(db, row, op);
    forall k | k in db.keyRows
      ensures k in KeysAfter(db.ledger)
    {
      RowIsInKeys(db, k);
    }
    RowsStillAgree(db, row, op);
  }

  // ---------- starting a machine ----------

  lemma EnrollStarts(db: Db, r: Db, op: OperatorId, store: StoreId, install: InstallId, key: NewKey, recovery: Option<KeyBinding>,
                     eventId: string, t0: int, t1: int, t2: int)
    requires db.keyRows == map[] && db.proofs == map[]
    requires Enroll(db, op, store, install, key, recovery, eventId, t0, t1, t2) == Ok(r)
    ensures Coherent(r, op) && |r.ledger| == 1 && ActiveRows(r.keyRows) == {key.keyId}
      && r.anchor.value.store == store && !r.anchor.value.Blocked()
  {
    hide Closed, Distinct, KeyStateSha;
    AcceptedGenesis(r.ledger, op);
    assert KeysAfter(r.ledger) == GenesisKeys(r.ledger[0].event, r.ledger[0].sha);
  }

  /** Pinning carried checkpoints leaves the tables alone and ends at the last one. */
  lemma {:induction false} PinAllFacts(db: Db, r: Db, items: seq<Checkpoint>, now: int)
    requires db.anchor.Some? && PinAll(db, items, now) == Ok(r)
    ensures r.ledger == db.ledger && r.keyRows == db.keyRows && r.proofs == db.proofs && r.requests == db.requests
    ensures r.anchor.Some? && r.anchor.value.blockReason == db.anchor.value.blockReason
    ensures r.anchor.value.operator == db.anchor.value.operator && r.anchor.value.store == db.anchor.value.store
    ensures r.anchor.value.genesisSha == db.anchor.value.genesisSha
    ensures r.anchor.value.checkpointSha ==
      if items == [] then db.anchor.value.checkpointSha else Some(CheckpointDigest(items[|items| - 1]))
    decreases |items|
  {
    hide Verifies;
    if items != [] {
      var next := PinLocal(db, items[0], now, false).value;
      PinAllFacts(next, r, items[1..], now);
    }
  }

  /** The one row a freshly certified machine holds. */
  lemma FirstRowAgrees(rows: seq<Row>, id: KeyId, row: KeyRow)
    requires |rows| > 0 && IsActive(KeysAfter(rows), id)
    requires KeysAfter(rows)[id].installId == row.installId && KeysAfter(rows)[id].publicKey == row.publicKey
    requires row.status == Active && row.sequence == |rows| && CertificateBlob(rows[|rows| - 1].event) == Some(row.blob)
    ensures RowsAgree(rows, map[id := row]) && AtMostOneActive(map[id := row]) && ActiveRows(map[id := row]) == {id}
  {
    hide KeysAfter;
    assert ActiveRows(map[id := row]) == {id};
  }

  lemma FinalizeSteps(db: Db, r: Db, op: OperatorId, package: Package, now: int) returns (items: seq<Checkpoint>, pinned: Db, certificate: Row)
    requires FinalizePairing(db, op, package, now) == Ok(r)
    ensures db.anchor.Some? && !db.anchor.value.Blocked() && db.ledger == [] && PackageExpected(db, package, db.anchor.value)
    ensures package.transport.history != [] && package.transport.history[|package.transport.history| - 1] == package.transport.checkpoint
    ensures Accepted(package.transport.ledger, package.transport.operator)
    ensures items == [] ==> db.anchor.value.checkpointSha == Some(CheckpointDigest(package.transport.checkpoint))
    ensures items != [] ==> items[|items| - 1] == package.transport.checkpoint
    ensures PinAll(db.(ledger := package.transport.ledger), items, now) == Ok(pinned)
    ensures RowWithSha(package.transport.ledger, package.certificateSha) == Some(certificate)
    ensures package.request.binding.keyId !in pinned.keyRows
    ensures var keyed := pinned.(keyRows := pinned.keyRows[package.request.binding.keyId := KeyRowFor(package.request, certificate.sequence)]);
      && ReplayAndAdvance(keyed, op, now).Ok?
      && r.ledger == ReplayAndAdvance(keyed, op, now).value.ledger
      && r.anchor == ReplayAndAdvance(keyed, op, now).value.anchor
      && r.keyRows == ReplayAndAdvance(keyed, op, now).value.keyRows
      && r.proofs == ReplayAndAdvance(keyed, op, now).value.proofs
  {
    hide HistoryOk, PinAll, ReplayAndAdvance, Accepted, KeysAfter, CheckpointOk, DistinctEventIds;
    var history := package.transport.history;
    var start := IndexOf(history, db.anchor.value.checkpointSha.value).value;
    items := history[start + 1..];
    pinned := PinAll(db.(ledger := package.transport.ledger), items, now).value;
    certificate := RowWithSha(package.transport.ledger, package.certificateSha).value;
  }

  /** A target that commits an authorized package becomes a coherent machine on the source's ledger. */
  lemma FinalizeStarts(db: Db, r: Db, op: OperatorId, package: Package, now: int)
    requires db.keyRows == map[] && db.proofs == map[] && FinalizePairing(db, op, package, now) == Ok(r)
    requires KeyRequested(package.transport.ledger, package.request) && package.certificateSha == HeadSha(package.transport.ledger)
    requires Accepted(package.transport.ledger, op)
    ensures Coherent(r, op) && r.ledger == package.transport.ledger
    ensures ActiveRows(r.keyRows) == {package.request.binding.keyId}
    ensures IsActive(KeysAfter(r.ledger), package.request.binding.keyId)
    ensures r.anchor.value.checkpointSha == Some(CheckpointDigest(package.transport.checkpoint))
    ensures db.anchor.Some? && r.anchor.value.store == db.anchor.value.store && r.anchor.value.genesisSha == db.anchor.value.genesisSha
  {
    hide FinalizePairing, PinAll, ReplayAndAdvance, Accepted, KeysAfter, AnchoredAtHead, RowsAgree, AtMostOneActive, KeyStateSha;
    var items, pinned, certificate := FinalizeSteps(db, r, op, package, now);
    PinAllFacts(db.(ledger := package.transport.ledger), pinned, items, now);
    var request := package.request;
    var keyed := pinned.(keyRows := pinned.keyRows[request.binding.keyId := KeyRowFor(request, certificate.sequence)]);
    AdvancedAtHead(keyed, op, now);
    LastRowSequence(package.transport.ledger, op);
    assert certificate == package.transport.ledger[|package.transport.ledger| - 1];
    FirstRowAgrees(keyed.ledger, request.binding.keyId, KeyRowFor(request, certificate.sequence));
    assert keyed.keyRows == map[request.binding.keyId := KeyRowFor(request, certificate.sequence)];
    AnchoredIdentity(r, op);
  }

  lemma LastRowSequence(rows: seq<Row>, op: OperatorId)
    requires Accepted(rows, op)
    ensures |rows| > 0 && rows[|rows| - 1].sequence == |rows|
  {
    hide KeysAfter, Admissible, SignerOk;
  }

  lemma AnchoredIdentity(db: Db, op: OperatorId)
    requires AnchoredAtHead(db.ledger, db.anchor, op)
    ensures |db.ledger| > 0 && db.anchor.Some? && db.anchor.value.store == StoreOf(db.ledger)
    ensures db.anchor.value.genesisSha == db.ledger[0].sha && db.anchor.value.operator == op
  {
  }

  // ---------- two machines converge ----------

  /** The parts of two anchors that pairing makes equal. */
  predicate SamePin(a: Anchor, b: Anchor) {
    && a.operator == b.operator && a.store == b.store && a.genesisSha == b.genesisSha
    && a.pinnedSequence == b.pinnedSequence && a.pinnedHead == b.pinnedHead && a.keyStateSha == b.keyStateSha
    && a.checkpointSha == b.checkpointSha
  }

  lemma TargetStaysFresh(t0: Db, t1: Db, t2: Db, op: OperatorId, bundle: Bundle, key: NewKey, install: InstallId, requestId: string,
                         request: PairingRequest, t: int, u: int)
    requires Bootstrap(t0, op, bundle, t) == Ok(t1) && RequestPairing(t1, op, key, install, requestId, u) == Ok((t2, request))
    ensures t2.keyRows == t0.keyRows && t2.proofs == t0.proofs && t2.ledger == []
    ensures request.binding.keyId == key.keyId && request.blob == key.blob && request.binding.installId == install
  {
    hide BundleOk, Closed, Distinct;
  }

  /** Whenever bootstrap, request, authorize and finalize all succeed, source and
      target hold the same ledger and the same pin, and the target's one active
      key is active in the replay. */
  lemma PairingConverges(source: Db, source': Db, t0: Db, t1: Db, t2: Db, t3: Db, op: OperatorId, bundle: Bundle,
                         key: NewKey, install: InstallId, requestId: string, request: PairingRequest, package: Package,
                         eventId: string, tBoot: int, tReq: int, at: int, issued: int, pinnedAt: int, tFin: int)
    requires Coherent(source, op)
    requires t0.keyRows == map[] && t0.proofs == map[]
    requires Bootstrap(t0, op, bundle, tBoot) == Ok(t1)
    requires RequestPairing(t1, op, key, install, requestId, tReq) == Ok((t2, request))
    requires AuthorizePairing(source, op, request, eventId, at, issued, pinnedAt) == Ok((source', package))
    requires FinalizePairing(t2, op, package, tFin) == Ok(t3)
    ensures Coherent(source', op) && Coherent(t3, op)
    ensures t3.ledger == source'.ledger && GrownByOne(source, source')
    ensures SamePin(t3.anchor.value, source'.anchor.value)
    ensures t3.anchor.value.pinnedSequence == |t3.ledger|
    ensures ActiveRows(t3.keyRows) == {key.keyId} && IsActive(KeysAfter(t3.ledger), key.keyId)
    ensures ActiveRows(source'.keyRows) == ActiveRows(source.keyRows)
  {
    hide Bootstrap, RequestPairing, AuthorizePairing, FinalizePairing, Accepted, KeysAfter, KeyRequested, RowsAgree, KeyStateSha;
    AuthorizeKeeps(source, source', package, op, request, eventId, at, issued, pinnedAt);
    TargetStaysFresh(t0, t1, t2, op, bundle, key, install, requestId, request, tBoot, tReq);
    FinalizeStarts(t2, t3, op, package, tFin);
  }

  // ---------- recovery onto a fresh machine ----------

  function RestoreRow(op: OperatorId, bundle: Bundle, transport: Transport, replaced: Option<InstallId>, key: NewKey,
                      install: InstallId, eventId: string, at: int): Row
    requires |transport.ledger| > 0
  {
    SignedRow(NextEvent(transport.ledger, eventId, if replaced.Some? then InstallationRebound else InstallationPaired, op,
                        install, key.keyId, bundle.recoveryKey, RestoreDetails(bundle, transport, replaced, key, install), at),
              bundle.recoveryPublicKey)
  }

  lemma RecoverSteps(db: Db, r: Db, op: OperatorId, bundle: Bundle, transport: Transport, replaced: Option<InstallId>,
                     key: NewKey, install: InstallId, eventId: string, at: int, now: int) returns (row: Row, keyed: Db, items: seq<Checkpoint>, pinned: Db)
    requires Recover(db, op, bundle, transport, replaced, key, install, eventId, at, now) == Ok(r)
    ensures |transport.ledger| > 0 && Accepted(transport.ledger, op) && transport.ledger[0].sha == transport.genesisSha
    ensures RecoveryTrusted(db, op, bundle, transport)
    ensures row == RestoreRow(op, bundle, transport, replaced, key, install, eventId, at)
    ensures key.keyId !in db.keyRows
    ensures keyed == db.(ledger := transport.ledger + [row],
                         keyRows := db.keyRows[key.keyId := KeyRow(install, bundle.store, key.publicKey, Active, |transport.ledger| + 1, key.blob)])
    ensures Accepted(keyed.ledger, op) && StoreOf(keyed.ledger) == bundle.store
    ensures PinAll(keyed, items, now) == Ok(pinned) && pinned.anchor.Some?
    ensures r == pinned.(anchor := Some(pinned.anchor.value.(
        pinnedSequence := |keyed.ledger|, pinnedHead := HeadSha(keyed.ledger),
        keyStateSha := KeyStateSha(KeysAfter(keyed.ledger)), updatedAt := at)))
  {
    hide BundleOk, HistoryOk, PinAll, KeysAfter, Accepted, CheckpointOk, KeyStateSha, RestoreDetails, DistinctEventIds, RecoveryTrusted;
    assert RecoveryTrusted(db, op, bundle, transport);
    TrustedOperators(db, op, bundle, transport);
    row := RestoreRow(op, bundle, transport, replaced, key, install, eventId, at);
    keyed := db.(ledger := transport.ledger + [row],
                 keyRows := db.keyRows[key.keyId := KeyRow(install, bundle.store, key.publicKey, Active, |transport.ledger| + 1, key.blob)]);
    var start := IndexOf(transport.history, CheckpointDigest(bundle.history[|bundle.history| - 1])).value;
    items := transport.history[start + 1..];
    pinned := PinAll(keyed, items, now).value;
  }

  lemma TrustedOperators(db: Db, op: OperatorId, bundle: Bundle, transport: Transport)
    requires RecoveryTrusted(db, op, bundle, transport)
    ensures bundle.history != [] && transport.operator == op && transport.store == bundle.store && transport.genesisSha == bundle.genesisSha
    ensures db.anchor.Some? && db.anchor.value.operator == op && db.anchor.value.store == bundle.store
    ensures db.anchor.value.genesisSha == bundle.genesisSha
  {
    hide KeysAfter;
  }

  /** A recovered machine is coherent, whether it joins or replaces an installation. */
  lemma RecoverStarts(db: Db, r: Db, op: OperatorId, bundle: Bundle, transport: Transport, replaced: Option<InstallId>,
                      key: NewKey, install: InstallId, eventId: string, at: int, now: int)
    requires db.keyRows == map[] && HoldMatches(db.anchor, db.proofs)
    requires Recover(db, op, bundle, transport, replaced, key, install, eventId, at, now) == Ok(r)
    ensures Coherent(r, op) && ActiveRows(r.keyRows) == {key.keyId}
    ensures |r.ledger| == |transport.ledger| + 1 && transport.ledger == r.ledger[..|transport.ledger|]
    ensures replaced.Some? ==>
      ActiveOn(KeysAfter(r.ledger), replaced.value) == if replaced.value == install then {key.keyId} else {}
  {
    hide Recover, Accepted, KeysAfter, RecoveryTrusted, KeyStateSha, RowsAgree, AtMostOneActive;
    var row, keyed, items, pinned := RecoverSteps(db, r, op, bundle, transport, replaced, key, install, eventId, at, now);
    TrustedOperators(db, op, bundle, transport);
    PinAllFacts(keyed, pinned, items, now);
    var carried := db.(ledger := transport.ledger);
    AppendedFacts(carried, row, op);
    RestoredKey(KeysAfter(transport.ledger), row, |transport.ledger| + 1, op, StoreOf(transport.ledger));
    var local := KeyRow(install, bundle.store, key.publicKey, Active, |transport.ledger| + 1, key.blob);
    FirstRowAgrees(keyed.ledger, key.keyId, local);
    assert keyed.keyRows == map[key.keyId := local];
  }

  lemma RestoredKey(keys: KeyMap, row: Row, sequence: int, op: OperatorId, store: StoreId)
    requires Admissible(keys, row.event, op, store)
    requires row.event.kind == InstallationPaired || row.event.kind == InstallationRebound
    ensures var after := Apply(keys, row.event, sequence, row.sha); var b := row.event.details.binding;
      && IsActive(after, b.keyId) && after[b.keyId].installId == b.installId && after[b.keyId].publicKey == b.publicKey
      && CertificateBlob(row.event) == row.event.details.blob
      && (row.event.kind == InstallationRebound ==>
            ActiveOn(after, row.event.details.oldInstall.value) ==
            if row.event.details.oldInstall.value == b.installId then {b.keyId} else {})
  {
  }

  // ---------- runs ----------

  /** The ceremonies of an enrolled machine; times and fresh identifiers are inputs. */
  datatype Ceremony =
    | CheckpointCeremony(ttl: int, issued: int, now: int)
    | RotateCeremony(key: NewKey, eventId: string, at: int, now: int)
    | AuthorizeCeremony(request: PairingRequest, eventId: string, at: int, issued: int, now: int)
    | RecoveryCeremony(recovery: KeyBinding, eventId: string, at: int, issued: int, now: int)
    | StateCeremony(q: StateRequest, bundle: Option<Bundle>, eventId: string, proofId: string, at: int, now: int)
    | AdjudicateCeremony(proofId: string, chosen: Digest, reason: string, decidedWith: Bundle, eventId: string, at: int)

  ghost function Attempt(db: Db, op: OperatorId, c: Ceremony): Result<Db> {
    match c
    case CheckpointCeremony(ttl, issued, now) => CreateCheckpoint(db, op, ttl, issued, now)
    case RotateCeremony(key, eventId, at, now) => Rotate(db, op, key, eventId, at, now)
    case AuthorizeCeremony(request, eventId, at, issued, now) =>
      var r :- AuthorizePairing(db, op, request, eventId, at, issued, now);
      Ok(r.0)
    case RecoveryCeremony(recovery, eventId, at, issued, now) =>
      var r :- CreateRecovery(db, op, recovery, eventId, at, issued, now);
      Ok(r.0)
    case StateCeremony(q, bundle, eventId, proofId, at, now) => ChangeKeyState(db, op, q, bundle, eventId, proofId, at, now)
    case AdjudicateCeremony(proofId, chosen, reason, bundle, eventId, at) =>
      Adjudicate(db, op, proofId, chosen, reason, bundle, eventId, at)
  }

  /** A refused ceremony rolls back. */
  ghost function Perform(db: Db, op: OperatorId, c: Ceremony): Db {
    var r := Attempt(db, op, c);
    if r.Ok? then r.value else db
  }

  ghost function Run(db: Db, op: OperatorId, ceremonies: seq<Ceremony>): Db {
    if ceremonies == [] then db
    else Perform(Run(db, op, ceremonies[..|ceremonies| - 1]), op, ceremonies[|ceremonies| - 1])
  }

  /** One committed ceremony on a coherent machine: coherent again, and either the
      ledger stays or it grows by one; while writes are blocked the only ceremony
      that commits is an adjudication signed by an active recovery key. */
  lemma CeremonyKeeps(db: Db, r: Db, op: OperatorId, c: Ceremony)
    requires Coherent(db, op) && Attempt(db, op, c) == Ok(r)
    ensures Coherent(r, op) && |db.ledger| > 0
    ensures if c.CheckpointCeremony? then r.ledger == db.ledger else GrownByOne(db, r) && RotatesInstallationAt(r.ledger, |r.ledger|)
    ensures c.AdjudicateCeremony? == db.anchor.value.Blocked()
    ensures c.AdjudicateCeremony? ==> !r.anchor.value.Blocked() && RecoveryDecision(db.ledger, r.ledger[|db.ledger|])
    ensures r.anchor.value.Blocked() == (c.StateCeremony? && c.q.compromised)
  {
    hide CreateCheckpoint, Rotate, AuthorizePairing, CreateRecovery, ChangeKeyState, Adjudicate, Accepted, KeysAfter, RowsAgree,
      AnchoredAtHead, RecoveryDecision;
    AnchoredLedger(db, op);
    match c
    case CheckpointCeremony(ttl, issued, now) =>
      CheckpointKeeps(db, r, op, ttl, issued, now);
    case RotateCeremony(key, eventId, at, now) =>
      RotateKeeps(db, r, op, key, eventId, at, now);
    case AuthorizeCeremony(request, eventId, at, issued, now) =>
      var package := AuthorizePairing(db, op, request, eventId, at, issued, now).value.1;
      AuthorizeKeeps(db, r, package, op, request, eventId, at, issued, now);
    case RecoveryCeremony(recovery, eventId, at, issued, now) =>
      var bundle := CreateRecovery(db, op, recovery, eventId, at, issued, now).value.1;
      RecoveryKeeps(db, r, bundle, op, recovery, eventId, at, issued, now);
    case StateCeremony(q, bundle, eventId, proofId, at, now) =>
      StateChangeKeeps(db, r, op, q, bundle, eventId, proofId, at, now);
    case AdjudicateCeremony(proofId, chosen, reason, bundle, eventId, at) =>
      AdjudicationKeeps(db, r, op, proofId, chosen, reason, bundle, eventId, at);
  }

  /** After every run of ceremonies the anchor is the replayed head, every key row
      agrees with the replay, at most one row is active, and writes are blocked
      exactly when one retained proof is unadjudicated. */
  lemma {:induction false} CeremonyInvariant(db: Db, op: OperatorId, ceremonies: seq<Ceremony>)
    requires Coherent(db, op)
    ensures Coherent(Run(db, op, ceremonies), op)
  {
    hide Perform, Coherent;
    if ceremonies != [] {
      var n := |ceremonies| - 1;
      CeremonyInvariant(db, op, ceremonies[..n]);
      PerformKeeps(Run(db, op, ceremonies[..n]), op, ceremonies[n]);
    }
  }

  lemma PerformKeeps(db: Db, op: OperatorId, c: Ceremony)
    requires Coherent(db, op)
    ensures Coherent(Perform(db, op, c), op)
    ensures var r := Perform(db, op, c).ledger;
      db.ledger == r || (|r| == |db.ledger| + 1 > 1 && db.ledger == r[..|db.ledger|] && RotatesInstallationAt(r, |r|))
  {
    hide Coherent, Attempt;
    var r := Attempt(db, op, c);
    if r.Ok? {
      CeremonyKeeps(db, r.value, op, c);
    }
  }

  /** From enrollment on. */
  lemma EnrolledRunsAreCoherent(db: Db, r: Db, op: OperatorId, store: StoreId, install: InstallId, key: NewKey, recovery: Option<KeyBinding>,
                                eventId: string, t0: int, t1: int, t2: int, ceremonies: seq<Ceremony>)
    requires db.keyRows == map[] && db.proofs == map[]
    requires Enroll(db, op, store, install, key, recovery, eventId, t0, t1, t2) == Ok(r)
    ensures Coherent(Run(r, op, ceremonies), op)
  {
    hide Coherent, Enroll;
    EnrollStarts(db, r, op, store, install, key, recovery, eventId, t0, t1, t2);
    CeremonyInvariant(r, op, ceremonies);
  }

  /** While blocked, whatever run is attempted changes nothing until an
      adjudication signed by an active recovery key commits. */
  lemma {:induction false} HeldUntilAdjudicated(db: Db, op: OperatorId, ceremonies: seq<Ceremony>)
    requires Coherent(db, op) && db.anchor.value.Blocked()
    requires forall i | 0 <= i < |ceremonies| :: !ceremonies[i].AdjudicateCeremony?
    ensures Run(db, op, ceremonies) == db
  {
    hide Attempt;
    if ceremonies != [] {
      var n := |ceremonies| - 1;
      HeldUntilAdjudicated(db, op, ceremonies[..n]);
      var r := Attempt(db, op, ceremonies[n]);
      if r.Ok? {
        CeremonyKeeps(db, r.value, op, ceremonies[n]);
      }
    }
  }

  /** Every ledger the ceremonies produce has at most one active key per installation, at every position. */
  lemma {:induction false} RunsKeepOneActive(db: Db, op: OperatorId, ceremonies: seq<Ceremony>)
    requires Coherent(db, op)
    requires forall k | 2 <= k <= |db.ledger| :: RotatesInstallationAt(db.ledger, k)
    ensures var rows := Run(db, op, ceremonies).ledger;
      && (forall k | 2 <= k <= |rows| :: RotatesInstallationAt(rows, k))
      && (forall k | 1 <= k <= |rows| :: OneActive(KeysAfter(rows[..k])))
  {
    hide Perform, RotatesInstallationAt, OneActive, KeysAfter, Accepted, RowsAgree;
    CeremonyInvariant(db, op, ceremonies);
    var rows := Run(db, op, ceremonies).ledger;
    if ceremonies != [] {
      var n := |ceremonies| - 1;
      var before := Run(db, op, ceremonies[..n]);
      CeremonyInvariant(db, op, ceremonies[..n]);
      RunsKeepOneActive(db, op, ceremonies[..n]);
      PerformKeeps(before, op, ceremonies[n]);
      forall k | 2 <= k <= |rows|
        ensures RotatesInstallationAt(rows, k)
      {
        if k <= |before.ledger| {
          RotationOfPrefix(rows, before.ledger, k);
        }
      }
    }
    OneActiveWhenRotationsNameInstallations(rows, op);
  }

  lemma RotationOfPrefix(rows: seq<Row>, prefix: seq<Row>, k: nat)
    requires |prefix| <= |rows| && prefix == rows[..|prefix|] && 2 <= k <= |prefix| && RotatesInstallationAt(prefix, k)
    ensures RotatesInstallationAt(rows, k)
  {
    hide KeysAfter;
    assert prefix[..k - 1] == rows[..k - 1];
  }
}
