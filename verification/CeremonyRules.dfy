/** When each ceremony of a machine commits, exactly. */
module CeremonyRules {
  import opened Outcomes
  import opened AuthorityData
  import opened AuthorityLedger
  import opened LedgerHistory
  import opened AuthorityTrust
  import opened AuthorityService
  import opened ServiceRuns
  import opened CarriedHistory

  // ---------- the machine's own key ----------

  /** The one active key row is this one, and the ledger covers it. */
  predicate OneActiveRow(db: Db, key: KeyId) {
    && key in db.keyRows && db.keyRows[key].status == Active
    && (forall id | id in db.keyRows && db.keyRows[id].status == Active :: id == key)
    && 0 < |db.ledger| && db.keyRows[key].sequence <= |db.ledger|
  }

  lemma ActiveBindingExactly(db: Db, key: KeyId)
    ensures ActiveBinding(db) == Ok(key) <==> OneActiveRow(db, key)
  {
    var active := ActiveRows(db.keyRows);
    if OneActiveRow(db, key) {
      assert active == {key};
    }
    if ActiveBinding(db) == Ok(key) {
      assert key in active;
      assert forall id | id in db.keyRows && db.keyRows[id].status == Active :: id in active;
    }
  }

  lemma ActiveRowIsHere(db: Db, key: KeyId)
    requires OneActiveRow(db, key)
    ensures key in db.keyRows && 0 < |db.ledger|
  {
  }

  /** A machine may sign if and only if its writes are open, its ledger replays, its rows agree
      with the replay and exactly one of them is active, for an active installation key. */
  lemma SigningKeyExactly(db: Db, op: OperatorId, key: KeyId)
    ensures SigningKey(db, op) == Ok(key) <==>
      && db.anchor.Some? && db.anchor.value.blockReason == None
      && Accepted(db.ledger, op) && RowsAgree(db.ledger, db.keyRows) && OneActiveRow(db, key)
      && IsActive(KeysAfter(db.ledger), key) && KeysAfter(db.ledger)[key].kind == Installation
  {
    hide ActiveBinding, OneActiveRow, Accepted, RowsAgree, KeysAfter;
    ActiveBindingExactly(db, key);
    if ActiveBinding(db).Ok? {
      ActiveBindingExactly(db, ActiveBinding(db).value);
    }
  }

  lemma SigningRow(db: Db, op: OperatorId, key: KeyId)
    requires Coherent(db, op) && SigningKey(db, op) == Ok(key)
    ensures key in db.keyRows && key in KeysAfter(db.ledger) && IsActive(KeysAfter(db.ledger), key) && KeysAfter(db.ledger)[key].kind == Installation
    ensures KeysAfter(db.ledger)[key].publicKey == db.keyRows[key].publicKey && KeysAfter(db.ledger)[key].installId == db.keyRows[key].installId
    ensures !db.anchor.value.Blocked() && ActiveRows(db.keyRows) == {key} && Accepted(db.ledger, op) && |db.ledger| > 0
  {
    SigningKeyFacts(db, op);
    AnchoredLedger(db, op);
    hide Accepted, KeysAfter, SigningKey, AnchoredAtHead, HoldMatches, AtMostOneActive;
    assert key in ActiveRows(db.keyRows);
    assert RowAgrees(db.ledger, KeysAfter(db.ledger), key, db.keyRows[key]);
  }

  // ---------- parts of a write ----------

  /** A next event signed with some key is accepted exactly when the signer is active, the key is
      its own and the event is admissible. */
  lemma NextAcceptedExactly(rows: seq<Row>, op: OperatorId, eventId: string, kind: EventKind, install: InstallId, keyId: KeyId,
                            signer: KeyId, privateKeyOf: Bytes, details: Details, at: int)
    requires Accepted(rows, op) && |rows| > 0
    ensures var e := NextEvent(rows, eventId, kind, op, install, keyId, signer, details, at);
      Accepted(rows + [SignedRow(e, privateKeyOf)], op) <==>
        && IsActive(KeysAfter(rows), signer) && KeysAfter(rows)[signer].publicKey == privateKeyOf
        && Admissible(KeysAfter(rows), e, op, StoreOf(rows))
  {
    LastRowSequence(rows, op);
    hide KeysAfter, Admissible;
    var e := NextEvent(rows, eventId, kind, op, install, keyId, signer, details, at);
    var all := rows + [SignedRow(e, privateKeyOf)];
    assert all[..|all| - 1] == rows;
  }

  /** The anchor names this ledger's domain and a row of it. */
  ghost predicate Anchored(db: Db, op: OperatorId) {
    && Accepted(db.ledger, op) && |db.ledger| > 0 && db.anchor.Some?
    && db.anchor.value.operator == op && db.anchor.value.store == StoreOf(db.ledger) && db.anchor.value.genesisSha == db.ledger[0].sha
    && LocalRowIs(db.ledger, db.anchor.value.pinnedSequence, db.anchor.value.pinnedHead)
  }

  lemma CoherentIsAnchored(db: Db, op: OperatorId)
    requires Coherent(db, op)
    ensures Anchored(db, op)
  {
    hide Accepted, KeysAfter, KeyStateSha, RowsAgree, AtMostOneActive, HoldMatches;
    AcceptedGenesis(db.ledger, op);
  }

  lemma GrownIsAnchored(db: Db, grown: Db, op: OperatorId, row: Row)
    requires Anchored(db, op) && grown.ledger == db.ledger + [row] && grown.anchor == db.anchor && Accepted(grown.ledger, op)
    ensures Anchored(grown, op)
  {
    hide Accepted;
    assert grown.ledger[0] == db.ledger[0];
  }

  lemma AdvancesExactly(db: Db, grown: Db, op: OperatorId, row: Row, now: int)
    requires Anchored(db, op) && grown.ledger == db.ledger + [row] && grown.anchor == db.anchor
    ensures ReplayAndAdvance(grown, op, now).Ok? <==> !db.anchor.value.Blocked() && Accepted(grown.ledger, op)
    ensures ReplayAndAdvance(grown, op, now).Ok? ==> Anchored(ReplayAndAdvance(grown, op, now).value, op)
  {
    hide Accepted, KeysAfter, KeyStateSha;
    assert grown.ledger[0] == db.ledger[0];
  }

  /** A checkpoint is issued and pinned exactly when writes are open, its signer is active
      with that key, and it is fresh for a lifetime of at most a day. */
  lemma PinsExactly(db: Db, op: OperatorId, signer: KeyId, privateKeyOf: Bytes, ttl: int, issued: int, now: int)
    requires Anchored(db, op) && Carried(db, op)
    ensures CheckpointAndPin(db, op, signer, privateKeyOf, ttl, issued, now).Ok? <==>
      && !db.anchor.value.Blocked() && IsActive(KeysAfter(db.ledger), signer) && KeysAfter(db.ledger)[signer].publicKey == privateKeyOf
      && 1 <= ttl <= 24 * 60 * 60 && issued <= now < issued + ttl * SECOND
  {
    hide Accepted, KeysAfter, KeyStateSha, Carried, Verifies, PinKnown, PinLocal, NewCheckpoint;
    var prior := db.anchor.value.checkpointSha;
    var issue := NewCheckpoint(db.ledger, op, signer, privateKeyOf, issued, ttl, prior);
    IssuesExactly(db.ledger, op, signer, privateKeyOf, ttl, issued, prior);
    if issue.Ok? {
      IssuedAtHead(db.ledger, op, signer, privateKeyOf, ttl, issued, prior, now);
      IssuedIsNew(db, op, issue.value);
      HeadPins(db, op, issue.value, now);
    }
  }

  lemma IssuesExactly(rows: seq<Row>, op: OperatorId, signer: KeyId, privateKeyOf: Bytes, ttl: int, issued: int, prior: Option<Digest>)
    requires Accepted(rows, op)
    ensures NewCheckpoint(rows, op, signer, privateKeyOf, issued, ttl, prior).Ok? <==> 1 <= ttl <= 24 * 60 * 60 && IsActive(KeysAfter(rows), signer)
  {
    hide Accepted, KeysAfter, KeyStateSha;
  }

  /** A new checkpoint at the head that continues the pinned one is pinned exactly when it verifies and writes are open. */
  lemma HeadPins(db: Db, op: OperatorId, c: Checkpoint, now: int)
    requires Anchored(db, op) && c.body.sequence == |db.ledger| && c.body.eventSha == HeadSha(db.ledger) && c.body.genesisSha == db.ledger[0].sha
    requires c.body.prior == db.anchor.value.checkpointSha && !PinKnown(db.pins, CheckpointDigest(c))
    ensures PinLocal(db, c, now, true).Ok? <==>
      !db.anchor.value.Blocked() && Verifies(db.ledger, op, Some(StoreOf(db.ledger)), Some(c), None, now, true)
  {
    hide Accepted, Verifies, PinKnown;
  }

  lemma IssuedAtHead(rows: seq<Row>, op: OperatorId, signer: KeyId, privateKeyOf: Bytes, ttl: int, issued: int, prior: Option<Digest>, now: int)
    requires NewCheckpoint(rows, op, signer, privateKeyOf, issued, ttl, prior).Ok?
    ensures var c := NewCheckpoint(rows, op, signer, privateKeyOf, issued, ttl, prior).value;
      && |rows| > 0 && c.body.sequence == |rows| && c.body.eventSha == HeadSha(rows) && c.body.genesisSha == rows[0].sha && c.body.prior == prior
      && (Verifies(rows, op, Some(StoreOf(rows)), Some(c), None, now, true) <==>
            KeysAfter(rows)[signer].publicKey == privateKeyOf && issued <= now < issued + ttl * SECOND)
  {
    hide Accepted, KeysAfter, KeyStateSha;
    AcceptedGenesis(rows, op);
    assert rows[..|rows|] == rows;
    assert ttl * SECOND <= MAX_CHECKPOINT_AGE;
  }

  lemma IssuedIsNew(db: Db, op: OperatorId, c: Checkpoint)
    requires Carried(db, op) && c.body.prior == db.anchor.value.checkpointSha
    ensures !PinKnown(db.pins, CheckpointDigest(c))
  {
    CarriedChain(db, op);
    hide PinsVerify, PinsChained, DistinctEventIds, RowsOfStore;
    var last := |db.pins| - 1;
    forall k | 0 <= k < |db.pins|
      ensures db.pins[k].sha != CheckpointDigest(c)
    {
      NotAgain(db.pins, k, c);
    }
  }

  lemma NotAgain(pins: seq<Pin>, k: nat, c: Checkpoint)
    requires PinsChained(pins) && k < |pins| && c.body.prior == Some(CheckpointDigest(pins[|pins| - 1].checkpoint))
    ensures pins[k].sha != CheckpointDigest(c)
  {
    assert ChainedAt(pins, k);
    if pins[k].checkpoint == c {
      ChainIsDistinct(pins, k - 1, |pins| - 1);
    }
  }

  // ---------- when each ceremony commits ----------

  lemma CheckpointCommitsExactly(db: Db, op: OperatorId, ttl: int, issued: int, now: int)
    requires Coherent(db, op) && Carried(db, op)
    ensures CreateCheckpoint(db, op, ttl, issued, now).Ok? <==>
      SigningKey(db, op).Ok? && 1 <= ttl <= 24 * 60 * 60 && issued <= now < issued + ttl * SECOND
  {
    CoherentIsAnchored(db, op);
    if SigningKey(db, op).Ok? {
      SigningRow(db, op, SigningKey(db, op).value);
      PinsExactly(db, op, SigningKey(db, op).value, db.keyRows[SigningKey(db, op).value].publicKey, ttl, issued, now);
    }
    hide Coherent, Carried, SigningKey, Anchored, KeysAfter, CheckpointAndPin;
  }

  lemma RotationCommitsExactly(db: Db, op: OperatorId, key: NewKey, eventId: string, at: int, now: int)
    requires Coherent(db, op)
    ensures Rotate(db, op, key, eventId, at, now).Ok? <==>
      && SigningKey(db, op).Ok? && !EventIdUsed(db.ledger, eventId)
      && |key.publicKey| == 32 && key.blob.size > 0 && key.keyId !in KeysAfter(db.ledger)
  {
    CoherentIsAnchored(db, op);
    if SigningKey(db, op).Ok? {
      var signer := SigningKey(db, op).value;
      SigningRow(db, op, signer);
      var local := db.keyRows[signer];
      var row := RotationRow(db, op, signer, local, key, eventId, at);
      RotationAccepted(db, op, key, eventId, at, signer);
      RotationInserts(db, op, key, signer, row);
      AdvancesExactly(db, Rotated(db, signer, key, row), op, row, now);
      RotationWrites(db, op, key, eventId, at, now, signer);
    }
    hide Coherent, SigningKey, KeysAfter, ReplayAndAdvance, Anchored, EventIdUsed;
  }

  lemma RotationAccepted(db: Db, op: OperatorId, key: NewKey, eventId: string, at: int, signer: KeyId)
    requires Accepted(db.ledger, op) && |db.ledger| > 0 && signer in db.keyRows && IsActive(KeysAfter(db.ledger), signer)
    requires KeysAfter(db.ledger)[signer].publicKey == db.keyRows[signer].publicKey && KeysAfter(db.ledger)[signer].installId == db.keyRows[signer].installId
    ensures Accepted(db.ledger + [RotationRow(db, op, signer, db.keyRows[signer], key, eventId, at)], op) <==>
      |key.publicKey| == 32 && key.blob.size > 0 && key.keyId !in KeysAfter(db.ledger)
  {
    var local := db.keyRows[signer];
    NextAcceptedExactly(db.ledger, op, eventId, KeyRotated, local.installId, key.keyId, signer, local.publicKey,
                        KeyDetails(BindingOf(key, local.installId), Some(key.blob), None, Some(signer), None), at);
    hide Accepted, KeysAfter;
  }

  /** The new row goes in exactly when its key is not here yet: the old one has retired. */
  lemma RotationInserts(db: Db, op: OperatorId, key: NewKey, signer: KeyId, row: Row)
    requires Coherent(db, op) && ActiveRows(db.keyRows) == {signer} && signer in db.keyRows
    ensures var local := db.keyRows[signer]; var retired := SetKeyStatus(db.(ledger := db.ledger + [row]), signer, Retired);
      InsertKeyRow(retired, key.keyId, KeyRow(local.installId, local.store, key.publicKey, Active, |db.ledger| + 1, key.blob)) ==
        if key.keyId in db.keyRows then Rejected else Ok(Rotated(db, signer, key, row))
    ensures key.keyId !in KeysAfter(db.ledger) ==> key.keyId !in db.keyRows
  {
    hide Accepted, KeysAfter, AnchoredAtHead, HoldMatches;
    if key.keyId in db.keyRows {
      RowIsInKeys(db, key.keyId);
    }
    assert forall k | k in db.keyRows && db.keyRows[k].status == Active :: k in ActiveRows(db.keyRows);
    hide RowsAgree, AtMostOneActive;
  }

  lemma RotationWrites(db: Db, op: OperatorId, key: NewKey, eventId: string, at: int, now: int, signer: KeyId)
    requires SigningKey(db, op) == Ok(signer) && signer in db.keyRows && |db.ledger| > 0
    ensures var local := db.keyRows[signer]; var row := RotationRow(db, op, signer, local, key, eventId, at);
      var inserted := InsertKeyRow(SetKeyStatus(db.(ledger := db.ledger + [row]), signer, Retired), key.keyId,
                                   KeyRow(local.installId, local.store, key.publicKey, Active, |db.ledger| + 1, key.blob));
      Rotate(db, op, key, eventId, at, now) ==
        if EventIdUsed(db.ledger, eventId) || inserted.Rejected? then Rejected else ReplayAndAdvance(inserted.value, op, now)
  {
    hide Accepted, KeysAfter, RowsAgree, ReplayAndAdvance, InsertKeyRow, EventIdUsed, SignedRow, SetKeyStatus;
  }

  /** An authorization commits exactly for a current request of this operator and store that
      asks for the next row with a complete certificate of a new key on a free installation. */
  lemma AuthorizationCommitsExactly(db: Db, op: OperatorId, request: PairingRequest, eventId: string, at: int, issued: int, now: int)
    requires Coherent(db, op) && Carried(db, op)
    ensures AuthorizePairing(db, op, request, eventId, at, issued, now).Ok? <==>
      && SigningKey(db, op).Ok? && !EventIdUsed(db.ledger, eventId)
      && request.operator == op && request.store == StoreOf(db.ledger) && at < request.expiresAt && request.expectedSequence == |db.ledger| + 1
      && |request.binding.publicKey| == 32 && request.binding.fingerprint == FingerprintDigest(request.binding.publicKey) && request.blob.size > 0
      && request.binding.keyId !in KeysAfter(db.ledger) && !InstallationTaken(KeysAfter(db.ledger), request.binding.installId)
      && issued <= now < issued + DAY_SECONDS * SECOND
  {
    CoherentIsAnchored(db, op);
    if SigningKey(db, op).Ok? {
      var signer := SigningKey(db, op).value;
      SigningRow(db, op, signer);
      SignerStore(db, op, signer);
      var row := PairingRow(db, op, signer, db.keyRows[signer], request, eventId, at);
      var grown := db.(ledger := db.ledger + [row]);
      PairingAccepted(db, op, request, eventId, at, signer);
      AdvancesExactly(db, grown, op, row, now);
      AnchorAtHead(db, op);
      AuthorizationWrites(db, op, request, eventId, at, issued, now, signer);
      if ReplayAndAdvance(grown, op, now).Ok? && !EventIdUsed(db.ledger, eventId) {
        AdvancedPins(db, grown, op, row, now, eventId, signer, issued);
      }
    }
    hide Coherent, SigningKey, KeysAfter, ReplayAndAdvance, Anchored, EventIdUsed, CheckpointAndPin, Carried, InstallationTaken, PairingRow;
  }

  lemma AnchorAtHead(db: Db, op: OperatorId)
    requires Coherent(db, op)
    ensures db.anchor.Some? && |db.ledger| > 0 && db.anchor.value.pinnedSequence == |db.ledger| && db.anchor.value.pinnedHead == HeadSha(db.ledger)
  {
    hide Accepted, KeysAfter, RowsAgree, AtMostOneActive, HoldMatches, KeyStateSha;
  }

  lemma SignerStore(db: Db, op: OperatorId, signer: KeyId)
    requires Carried(db, op) && signer in db.keyRows
    ensures |db.ledger| > 0 && db.keyRows[signer].store == StoreOf(db.ledger)
  {
    hide PinsVerify, PinsChained, DistinctEventIds;
  }

  lemma PairingAccepted(db: Db, op: OperatorId, request: PairingRequest, eventId: string, at: int, signer: KeyId)
    requires Accepted(db.ledger, op) && |db.ledger| > 0 && signer in db.keyRows && IsActive(KeysAfter(db.ledger), signer)
    requires db.anchor.Some? && db.anchor.value.pinnedHead == HeadSha(db.ledger) && db.keyRows[signer].store == StoreOf(db.ledger)
    requires KeysAfter(db.ledger)[signer].publicKey == db.keyRows[signer].publicKey
    ensures Accepted(db.ledger + [PairingRow(db, op, signer, db.keyRows[signer], request, eventId, at)], op) <==>
      && |request.binding.publicKey| == 32 && request.binding.fingerprint == FingerprintDigest(request.binding.publicKey) && request.blob.size > 0
      && request.binding.keyId !in KeysAfter(db.ledger) && !InstallationTaken(KeysAfter(db.ledger), request.binding.installId)
  {
    var local := db.keyRows[signer];
    NextAcceptedExactly(db.ledger, op, eventId, InstallationPaired, request.binding.installId, request.binding.keyId, signer, local.publicKey,
                        KeyDetails(request.binding, Some(request.blob),
                                   Some(AuthorizationFor(request, op, local.store, db.anchor.value.pinnedHead)), None, None), at);
    hide Accepted, KeysAfter, InstallationTaken;
  }

  lemma AuthorizationWrites(db: Db, op: OperatorId, request: PairingRequest, eventId: string, at: int, issued: int, now: int, signer: KeyId)
    requires SigningKey(db, op) == Ok(signer) && signer in db.keyRows && |db.ledger| > 0 && db.anchor.Some? && !db.anchor.value.Blocked()
    ensures var local := db.keyRows[signer];
      var grown := db.(ledger := db.ledger + [PairingRow(db, op, signer, local, request, eventId, at)]);
      AuthorizePairing(db, op, request, eventId, at, issued, now).Ok? <==>
        && request.operator == op && at < request.expiresAt && request.store == local.store
        && request.expectedSequence == db.anchor.value.pinnedSequence + 1 && !EventIdUsed(db.ledger, eventId)
        && ReplayAndAdvance(grown, op, now).Ok?
        && CheckpointAndPin(ReplayAndAdvance(grown, op, now).value, op, signer, local.publicKey, DAY_SECONDS, issued, now).Ok?
  {
    hide Accepted, KeysAfter, RowsAgree, ReplayAndAdvance, CheckpointAndPin, EventIdUsed, SignedRow, SigningKey, TransportFrom;
  }

  /** After a certificate has been appended the same signer's checkpoint is pinned while it is fresh. */
  lemma AdvancedPins(db: Db, grown: Db, op: OperatorId, row: Row, now: int, eventId: string, signer: KeyId, issued: int)
    requires Anchored(db, op) && Carried(db, op) && grown == db.(ledger := db.ledger + [row]) && ReplayAndAdvance(grown, op, now).Ok?
    requires row.columns.eventId == eventId && !EventIdUsed(db.ledger, eventId) && row.event.kind in {InstallationPaired, RecoveryCreated}
    requires signer in db.keyRows && IsActive(KeysAfter(db.ledger), signer) && KeysAfter(db.ledger)[signer].publicKey == db.keyRows[signer].publicKey
    ensures CheckpointAndPin(ReplayAndAdvance(grown, op, now).value, op, signer, db.keyRows[signer].publicKey, DAY_SECONDS, issued, now).Ok?
      <==> issued <= now < issued + DAY_SECONDS * SECOND
  {
    var advanced := ReplayAndAdvance(grown, op, now).value;
    AdvancesExactly(db, grown, op, row, now);
    AdvancedAtHead(grown, op, now);
    StillCertified(db, op, row, signer);
    AnchoredAccepted(db, op);
    AnchoredAccepted(advanced, op);
    hide Anchored, Carried, Accepted, KeysAfter, ReplayAndAdvance, AnchoredAtHead, CheckpointAndPin, RowsOfStore;
    GrowthCarries(db, advanced, op, row);
    PinsExactly(advanced, op, signer, db.keyRows[signer].publicKey, DAY_SECONDS, issued, now);
  }

  lemma AnchoredAccepted(db: Db, op: OperatorId)
    requires Anchored(db, op)
    ensures Accepted(db.ledger, op) && |db.ledger| > 0 && db.anchor.Some?
  {
    hide Accepted;
  }

  /** A certificate leaves every other key as it was. */
  lemma StillCertified(db: Db, op: OperatorId, row: Row, signer: KeyId)
    requires Accepted(db.ledger, op) && |db.ledger| > 0 && row.event.kind in {InstallationPaired, RecoveryCreated}
    requires signer in KeysAfter(db.ledger)
    ensures Accepted(db.ledger + [row], op) ==>
      signer in KeysAfter(db.ledger + [row]) && KeysAfter(db.ledger + [row])[signer] == KeysAfter(db.ledger)[signer]
  {
    hide Accepted, KeysAfter, Admissible, Apply;
    if Accepted(db.ledger + [row], op) {
      AppendedFacts(db, row, op);
      NewKeyLeavesOthers(KeysAfter(db.ledger), row, |db.ledger| + 1, op, StoreOf(db.ledger));
    }
  }

  /** A recovery ceremony commits exactly for a complete certificate of a new key. */
  lemma RecoveryCommitsExactly(db: Db, op: OperatorId, recovery: KeyBinding, eventId: string, at: int, issued: int, now: int)
    requires Coherent(db, op) && Carried(db, op)
    ensures CreateRecovery(db, op, recovery, eventId, at, issued, now).Ok? <==>
      && SigningKey(db, op).Ok? && !EventIdUsed(db.ledger, eventId)
      && |recovery.publicKey| == 32 && recovery.fingerprint == FingerprintDigest(recovery.publicKey) && recovery.keyId !in KeysAfter(db.ledger)
      && issued <= now < issued + DAY_SECONDS * SECOND
  {
    CoherentIsAnchored(db, op);
    if SigningKey(db, op).Ok? {
      var signer := SigningKey(db, op).value;
      SigningRow(db, op, signer);
      var row := RecoveryRow(db, op, signer, db.keyRows[signer], recovery, eventId, at);
      RecoveryAccepted(db, op, recovery, eventId, at, signer);
      RecoveryWrites(db, op, recovery, eventId, at, issued, now, signer);
      if Accepted(db.ledger + [row], op) && !EventIdUsed(db.ledger, eventId) {
        GrownPins(db, op, row, now, eventId, signer, issued);
      }
    }
    hide Coherent, SigningKey, KeysAfter, Accepted, Anchored, EventIdUsed, CheckpointAndPin, Carried, RecoveryRow;
  }

  lemma RecoveryAccepted(db: Db, op: OperatorId, recovery: KeyBinding, eventId: string, at: int, signer: KeyId)
    requires Accepted(db.ledger, op) && |db.ledger| > 0 && signer in db.keyRows && IsActive(KeysAfter(db.ledger), signer)
    requires KeysAfter(db.ledger)[signer].publicKey == db.keyRows[signer].publicKey
    ensures Accepted(db.ledger + [RecoveryRow(db, op, signer, db.keyRows[signer], recovery, eventId, at)], op) <==>
      |recovery.publicKey| == 32 && recovery.fingerprint == FingerprintDigest(recovery.publicKey) && recovery.keyId !in KeysAfter(db.ledger)
  {
    NextAcceptedExactly(db.ledger, op, eventId, RecoveryCreated, recovery.installId, recovery.keyId, signer, db.keyRows[signer].publicKey,
                        KeyDetails(recovery, None, None, None, None), at);
    hide Accepted, KeysAfter;
  }

  lemma RecoveryWrites(db: Db, op: OperatorId, recovery: KeyBinding, eventId: string, at: int, issued: int, now: int, signer: KeyId)
    requires SigningKey(db, op) == Ok(signer) && signer in db.keyRows && |db.ledger| > 0 && db.anchor.Some? && !db.anchor.value.Blocked()
    ensures var local := db.keyRows[signer];
      var grown := db.(ledger := db.ledger + [RecoveryRow(db, op, signer, local, recovery, eventId, at)]);
      CreateRecovery(db, op, recovery, eventId, at, issued, now).Ok? <==>
        && !EventIdUsed(db.ledger, eventId) && Accepted(grown.ledger, op)
        && CheckpointAndPin(grown, op, signer, local.publicKey, DAY_SECONDS, issued, now).Ok?
  {
    hide Accepted, KeysAfter, RowsAgree, CheckpointAndPin, EventIdUsed, SignedRow, SigningKey, HistoryOf;
  }

  lemma GrownPins(db: Db, op: OperatorId, row: Row, now: int, eventId: string, signer: KeyId, issued: int)
    requires Anchored(db, op) && Carried(db, op) && Accepted(db.ledger + [row], op) && !db.anchor.value.Blocked()
    requires row.columns.eventId == eventId && !EventIdUsed(db.ledger, eventId) && row.event.kind in {InstallationPaired, RecoveryCreated}
    requires signer in db.keyRows && IsActive(KeysAfter(db.ledger), signer) && KeysAfter(db.ledger)[signer].publicKey == db.keyRows[signer].publicKey
    ensures CheckpointAndPin(db.(ledger := db.ledger + [row]), op, signer, db.keyRows[signer].publicKey, DAY_SECONDS, issued, now).Ok?
      <==> issued <= now < issued + DAY_SECONDS * SECOND
  {
    var grown := db.(ledger := db.ledger + [row]);
    AnchoredAccepted(db, op);
    GrownIsAnchored(db, grown, op, row);
    StillCertified(db, op, row, signer);
    hide Anchored, Carried, Accepted, KeysAfter, CheckpointAndPin, RowsOfStore;
    GrowthCarries(db, grown, op, row);
    PinsExactly(grown, op, signer, db.keyRows[signer].publicKey, DAY_SECONDS, issued, now);
  }

  // ---------- key-state changes and decisions ----------

  /** Who signs a key-state change: an accepted bundle's recovery key, or the machine's own key,
      which does not declare itself compromised. */
  ghost predicate MaySign(db: Db, op: OperatorId, q: StateRequest, bundle: Option<Bundle>, signer: KeyId, signerKey: Bytes) {
    if bundle.Some? then BundleOk(bundle.value) && signer == bundle.value.recoveryKey && signerKey == bundle.value.recoveryPublicKey
    else SigningKey(db, op) == Ok(signer) && signer in db.keyRows && signerKey == db.keyRows[signer].publicKey
  }

  /** A key-state change commits exactly when it names an active target and gives a reason, its signer
      is active with that key and, for a compromise, another one, and its times, replacement and ids are in order. */
  lemma StateChangeCommitsExactly(db: Db, op: OperatorId, q: StateRequest, bundle: Option<Bundle>, eventId: string, proofId: string, at: int, now: int)
    requires Coherent(db, op)
    ensures ChangeKeyState(db, op, q, bundle, eventId, proofId, at, now).Ok? <==>
      && !db.anchor.value.Blocked() && !Blank(q.reason) && IsActive(KeysAfter(db.ledger), q.target) && !EventIdUsed(db.ledger, eventId)
      && (q.compromised ==> proofId !in db.proofs)
      && (q.replacement.Some? ==> q.replacement.value in KeysAfter(db.ledger))
      && (q.compromisedAt.Some? ==> q.compromisedAt.value <= q.effectiveAt)
      && exists signer, signerKey :: MaySign(db, op, q, bundle, signer, signerKey)
           && IsActive(KeysAfter(db.ledger), signer) && KeysAfter(db.ledger)[signer].publicKey == signerKey && (q.compromised ==> signer != q.target)
  {
    CoherentIsAnchored(db, op);
    AnchoredAccepted(db, op);
    StateSignerExactly(db, op, q, bundle);
    hide Coherent, Anchored, StateSigner, Accepted, KeysAfter, BundleOk, Blank, StateWrite, EventIdUsed, MaySign;
    if IsActive(KeysAfter(db.ledger), q.target) && StateSigner(db, op, q, bundle).Ok? {
      StateWriteExactly(db, op, q, StateSigner(db, op, q, bundle).value, eventId, proofId, at, now);
    }
  }

  lemma StateSignerExactly(db: Db, op: OperatorId, q: StateRequest, bundle: Option<Bundle>)
    requires Coherent(db, op)
    ensures StateSigner(db, op, q, bundle).Ok? ==> var s := StateSigner(db, op, q, bundle).value; MaySign(db, op, q, bundle, s.0, s.1)
    ensures forall signer, signerKey | MaySign(db, op, q, bundle, signer, signerKey) && IsActive(KeysAfter(db.ledger), signer)
      && (q.compromised ==> signer != q.target) :: StateSigner(db, op, q, bundle) == Ok((signer, signerKey))
  {
    if SigningKey(db, op).Ok? {
      SigningRow(db, op, SigningKey(db, op).value);
      SigningIsBinding(db, op);
    }
    hide Coherent, SigningKey, KeysAfter, BundleOk, ActiveBinding;
  }

  lemma SigningIsBinding(db: Db, op: OperatorId)
    requires SigningKey(db, op).Ok?
    ensures ActiveBinding(db) == SigningKey(db, op)
  {
    hide Accepted, KeysAfter, RowsAgree, ActiveBinding;
  }

  lemma StateWriteExactly(db: Db, op: OperatorId, q: StateRequest, signer: (KeyId, Bytes), eventId: string, proofId: string, at: int, now: int)
    requires Anchored(db, op) && IsActive(KeysAfter(db.ledger), q.target)
    ensures var key := KeysAfter(db.ledger)[q.target];
      StateWrite(db, op, q, key.kind, key.installId, signer, eventId, proofId, at, now).Ok? <==>
        && !db.anchor.value.Blocked() && !EventIdUsed(db.ledger, eventId) && (q.compromised ==> proofId !in db.proofs)
        && !Blank(q.reason) && IsActive(KeysAfter(db.ledger), signer.0) && KeysAfter(db.ledger)[signer.0].publicKey == signer.1
        && (q.compromised ==> signer.0 != q.target)
        && (q.replacement.Some? ==> q.replacement.value in KeysAfter(db.ledger))
        && (q.compromisedAt.Some? ==> q.compromisedAt.value <= q.effectiveAt)
  {
    hide Accepted, KeysAfter, Anchored, Blank, ReplayAndAdvance, AnchoredAtHead, EventIdUsed, StateDetailsFor, SignedRow, SetKeyStatus, StateWrite,
      StateRow, Marked;
    AnchoredAccepted(db, op);
    var row := StateRow(db, op, q, signer, eventId, at);
    StateAccepted(db, op, q, signer, eventId, at);
    MarkedIs(db, q, row);
    AdvancesExactly(db, Marked(db, q, row), op, row, now);
    StateWriteIs(db, op, q, signer, eventId, proofId, at, now);
    if ReplayAndAdvance(Marked(db, q, row), op, now).Ok? {
      AdvancedAtHead(Marked(db, q, row), op, now);
    }
  }

  lemma StateWriteIs(db: Db, op: OperatorId, q: StateRequest, signer: (KeyId, Bytes), eventId: string, proofId: string, at: int, now: int)
    requires |db.ledger| > 0 && q.target in KeysAfter(db.ledger)
    ensures var key := KeysAfter(db.ledger)[q.target];
      var advanced := ReplayAndAdvance(Marked(db, q, StateRow(db, op, q, signer, eventId, at)), op, now);
      StateWrite(db, op, q, key.kind, key.installId, signer, eventId, proofId, at, now).Ok? <==>
        !EventIdUsed(db.ledger, eventId) && advanced.Ok? && (q.compromised ==> proofId !in advanced.value.proofs)
  {
    hide Accepted, KeysAfter, ReplayAndAdvance, EventIdUsed, StateDetailsFor, SignedRow, SetKeyStatus, StateKind;
  }

  lemma MarkedIs(db: Db, q: StateRequest, row: Row)
    ensures Marked(db, q, row).ledger == db.ledger + [row] && Marked(db, q, row).anchor == db.anchor && Marked(db, q, row).proofs == db.proofs
  {
  }

  lemma StateAccepted(db: Db, op: OperatorId, q: StateRequest, signer: (KeyId, Bytes), eventId: string, at: int)
    requires Accepted(db.ledger, op) && |db.ledger| > 0 && IsActive(KeysAfter(db.ledger), q.target)
    ensures Accepted(db.ledger + [StateRow(db, op, q, signer, eventId, at)], op) <==>
      && !Blank(q.reason) && IsActive(KeysAfter(db.ledger), signer.0) && KeysAfter(db.ledger)[signer.0].publicKey == signer.1
      && (q.compromised ==> signer.0 != q.target)
      && (q.replacement.Some? ==> q.replacement.value in KeysAfter(db.ledger))
      && (q.compromisedAt.Some? ==> q.compromisedAt.value <= q.effectiveAt)
  {
    hide Accepted, KeysAfter, Blank, Admissible, StateDetailsFor, StateKind;
    var key := KeysAfter(db.ledger)[q.target];
    NextAcceptedExactly(db.ledger, op, eventId, StateKind(q, key.kind), key.installId, q.target, signer.0, signer.1,
                        StateDetailsFor(q, key.installId), at);
    StateAdmissible(db.ledger, KeysAfter(db.ledger), op, q, signer.0, eventId, at, StoreOf(db.ledger));
  }

  lemma StateAdmissible(rows: seq<Row>, keys: KeyMap, op: OperatorId, q: StateRequest, signer: KeyId, eventId: string, at: int, store: StoreId)
    requires |rows| > 0 && IsActive(keys, q.target)
    ensures var key := keys[q.target];
      Admissible(keys, NextEvent(rows, eventId, StateKind(q, key.kind), op, key.installId, q.target, signer, StateDetailsFor(q, key.installId), at),
                 op, store) <==>
        && !Blank(q.reason) && (q.compromised ==> signer != q.target)
        && (q.replacement.Some? ==> q.replacement.value in keys)
        && (q.compromisedAt.Some? ==> q.compromisedAt.value <= q.effectiveAt)
  {
    hide Blank;
  }

  /** An adjudication performed as one step commits exactly on an open proof, with a reason, an accepted bundle
      whose recovery key is active under that public key, and the pinned checkpoint as its choice. */
  lemma DecisionCommitsExactly(db: Db, op: OperatorId, proofId: string, chosen: Digest, reason: string, bundle: Bundle, eventId: string, at: int)
    requires Coherent(db, op)
    ensures Adjudicate(db, op, proofId, chosen, reason, bundle, eventId, at).Ok? <==>
      && proofId in Open(db.proofs) && !Blank(reason) && !EventIdUsed(db.ledger, eventId) && BundleOk(bundle)
      && IsActive(KeysAfter(db.ledger), bundle.recoveryKey) && KeysAfter(db.ledger)[bundle.recoveryKey].kind == Recovery
      && KeysAfter(db.ledger)[bundle.recoveryKey].publicKey == bundle.recoveryPublicKey
      && db.anchor.value.checkpointSha == Some(chosen)
  {
    hide Coherent, Anchored, Accepted, KeysAfter, BundleOk, Blank, DecisionWrite, EventIdUsed;
    CoherentIsAnchored(db, op);
    AnchoredAccepted(db, op);
    OpenIsBlocked(db, op);
    var read := ReadConflict(db, op, proofId, chosen, reason, bundle);
    if read.Ok? {
      DecisionWriteExactly(db, op, read.value, eventId, at);
    }
  }

  lemma OpenIsBlocked(db: Db, op: OperatorId)
    requires Coherent(db, op)
    ensures db.anchor.Some? && forall p | p in Open(db.proofs) :: db.anchor.value.Blocked()
  {
    hide AnchoredAtHead, RowsAgree, AtMostOneActive;
  }

  lemma DecisionWriteExactly(db: Db, op: OperatorId, d: Decision, eventId: string, at: int)
    requires Accepted(db.ledger, op) && |db.ledger| > 0 && IsActive(KeysAfter(db.ledger), d.signer) && KeysAfter(db.ledger)[d.signer].kind == Recovery
    ensures DecisionWrite(db, op, d, eventId, at).Ok? <==>
      !EventIdUsed(db.ledger, eventId) && !Blank(d.reason) && KeysAfter(db.ledger)[d.signer].publicKey == d.signerKey
  {
    hide Accepted, KeysAfter, Blank, EventIdUsed, KeyStateSha, Admissible;
    NextAcceptedExactly(db.ledger, op, eventId, ConflictAdjudicated, d.install, d.signer, d.signer, d.signerKey,
                        AdjudicationDetails(d.proofId, d.chosen, d.candidateSha, d.reason, at), at);
    DecisionAdmissible(db.ledger, KeysAfter(db.ledger), op, d, eventId, at, StoreOf(db.ledger));
    hide SignedRow;
  }

  lemma DecisionAdmissible(rows: seq<Row>, keys: KeyMap, op: OperatorId, d: Decision, eventId: string, at: int, store: StoreId)
    requires |rows| > 0 && d.signer in keys && keys[d.signer].kind == Recovery
    ensures var details := AdjudicationDetails(d.proofId, d.chosen, d.candidateSha, d.reason, at);
      Admissible(keys, NextEvent(rows, eventId, ConflictAdjudicated, op, d.install, d.signer, d.signer, details, at), op, store) <==> !Blank(d.reason)
  {
    hide Blank;
  }

  // ---------- enrollment ----------

  /** An enrollment commits exactly on a machine without ledger and anchor, for a key that is not held and an
      installation without an active one, with a recovery certificate, if any, that is complete and of another key. */
  lemma EnrollmentCommitsExactly(db: Db, op: OperatorId, store: StoreId, install: InstallId, key: NewKey, recovery: Option<KeyBinding>,
                                 eventId: string, t0: int, t1: int, t2: int)
    requires db.pins == []
    ensures Enroll(db, op, store, install, key, recovery, eventId, t0, t1, t2).Ok? <==>
      && db.ledger == [] && db.anchor == None && key.keyId !in db.keyRows
      && (forall id | id in db.keyRows && db.keyRows[id].installId == install :: db.keyRows[id].status != Active)
      && (recovery.Some? ==> |recovery.value.publicKey| == 32 && recovery.value.fingerprint == FingerprintDigest(recovery.value.publicKey)
                             && recovery.value.keyId != key.keyId)
  {
    var rows := [SignedRow(GenesisEvent(op, store, install, key, recovery, eventId, t0), key.publicKey)];
    GenesisAcceptedExactly(op, store, install, key, recovery, eventId, t0);
    hide Accepted, KeyStateSha;
    if Accepted(rows, op) {
      GenesisKeysHeld(rows, key, recovery);
      hide KeysAfter;
      var c := NewCheckpoint(rows, op, key.keyId, key.publicKey, t1, DAY_SECONDS, None);
      assert c.Ok? && Closed([c.value], None) by { assert [c.value][1..] == []; }
    }
  }

  function GenesisEvent(op: OperatorId, store: StoreId, install: InstallId, key: NewKey, recovery: Option<KeyBinding>, eventId: string, at: int): Event {
    Genesis(1, eventId, Enrollment, op, install, key.keyId, at, None, store, key.publicKey, FingerprintDigest(key.publicKey), key.nonce, key.blob,
            recovery, None)
  }

  lemma GenesisAcceptedExactly(op: OperatorId, store: StoreId, install: InstallId, key: NewKey, recovery: Option<KeyBinding>, eventId: string, at: int)
    ensures Accepted([SignedRow(GenesisEvent(op, store, install, key, recovery, eventId, at), key.publicKey)], op) <==>
      (recovery.Some? ==> |recovery.value.publicKey| == 32 && recovery.value.fingerprint == FingerprintDigest(recovery.value.publicKey)
                          && recovery.value.keyId != key.keyId)
  {
  }

  lemma GenesisKeysHeld(rows: seq<Row>, key: NewKey, recovery: Option<KeyBinding>)
    requires |rows| == 1 && rows[0].event.Genesis? && rows[0].event.keyId == key.keyId && rows[0].event.recovery == recovery
    requires recovery.Some? ==> recovery.value.keyId != key.keyId
    ensures IsActive(KeysAfter(rows), key.keyId)
    ensures recovery.Some? ==> RecoveryInChain(KeysAfter(rows), Some(recovery.value.keyId), Some(recovery.value.publicKey))
  {
  }

  // ---------- reconciliation ----------

  /** The machine's rows are reconciled exactly when each is a key of the replay in the same state, of the same
      installation and public key, and the row that it says certified it names its very key file. */
  lemma RowsAgreeExactly(ledger: seq<Row>, keyRows: map<KeyId, KeyRow>)
    ensures RowsAgree(ledger, keyRows) <==> forall id | id in keyRows :: id in KeysAfter(ledger) && ReconciledRow(ledger, KeysAfter(ledger)[id], keyRows[id])
  {
    hide KeysAfter;
    assert forall id | id in keyRows :: RowAgrees(ledger, KeysAfter(ledger), id, keyRows[id]) <==>
      id in KeysAfter(ledger) && ReconciledRow(ledger, KeysAfter(ledger)[id], keyRows[id]);
  }

  predicate ReconciledRow(ledger: seq<Row>, key: Key, row: KeyRow) {
    && key.status == row.status && key.installId == row.installId && key.publicKey == row.publicKey
    && 1 <= row.sequence <= |ledger|
    && match ledger[row.sequence - 1].event
       case Genesis(_, _, _, _, _, _, _, _, _, _, _, _, blob, _, _) => blob == row.blob
       case Lifecycle(_, _, _, _, _, _, _, _, _, details) => details.KeyDetails? && details.blob == Some(row.blob)
  }
}
