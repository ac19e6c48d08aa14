/** The service object of one machine: each ceremony updates the tables in place,
    in the program's order, and rolls back when a step raises. */
module AuthorityMachine {
  import opened Outcomes
  import opened AuthorityData
  import opened AuthorityLedger
  import opened AuthorityTrust
  import opened AuthorityService

  /** The loop over a closed checkpoint history against one in-memory ledger. */
  method VerifyHistory(table: LedgerTable, op: OperatorId, store: StoreId, history: seq<Checkpoint>,
                       mustBeFresh: Option<Checkpoint>, now: int) returns (ok: bool)
    ensures ok == HistoryOk(table.rows, op, store, history, None, mustBeFresh, now)
  {
    hide Verifies;
    var prior: Option<Digest> := None;
    var i := 0;
    while i < |history|
      invariant 0 <= i <= |history|
      invariant HistoryOk(table.rows, op, store, history[i..], prior, mustBeFresh, now) ==
                HistoryOk(table.rows, op, store, history, None, mustBeFresh, now)
    {
      assert history[i..][0] == history[i] && history[i..][1..] == history[i + 1..];
      if history[i].body.prior != prior {
        return false;
      }
      var step := table.VerifyAuthorityChain(op, Some(store), Some(history[i]), None, now, mustBeFresh == Some(history[i]));
      if step.Rejected? {
        return false;
      }
      prior := Some(CheckpointDigest(history[i]));
      i := i + 1;
    }
    ok := true;
  }

  /** `verify_authority_transport`. */
  method VerifyTransport(t: Transport, now: int) returns (ok: bool)
    ensures ok == TransportOk(t, now)
  {
    hide HistoryOk, Verifies;
    if |t.history| == 0 {
      return false;
    }
    var table := new LedgerTable();
    table.rows := t.ledger;
    var last := t.history[|t.history| - 1];
    ok := VerifyHistory(table, t.operator, t.store, t.history, Some(last), now);
    if !ok || last != t.checkpoint {
      return false;
    }
    var chain := table.VerifyAuthorityChain(t.operator, Some(t.store), Some(t.checkpoint), None, now, true);
    ok := chain.Ok? && chain.value.genesisSha == t.genesisSha;
  }

  /** `verify_recovery_bundle`; the last checkpoint may also be required to be fresh. */
  method VerifyBundle(b: Bundle, requireFresh: bool, now: int) returns (ok: bool)
    ensures ok == (BundleOk(b) && (requireFresh ==> BundleFresh(b, now)))
  {
    hide HistoryOk, Accepted, KeysAfter;
    if |b.history| == 0 {
      return false;
    }
    var table := new LedgerTable();
    table.rows := b.ledger;
    ok := VerifyHistory(table, b.operator, b.store, b.history, None, 0);
    if !ok {
      return false;
    }
    var last := b.history[|b.history| - 1];
    var chain := table.VerifyAuthorityChain(b.operator, Some(b.store), if requireFresh then Some(last) else None, None, now, true);
    if chain.Rejected? {
      return false;
    }
    var v := chain.value;
    if v.headSequence != b.ledgerSequence || v.headSha != b.ledgerHead || v.genesisSha != b.genesisSha {
      return false;
    }
    if b.signerKey !in v.keys || b.recoveryKey !in v.keys {
      return false;
    }
    var signer, recovery := v.keys[b.signerKey], v.keys[b.recoveryKey];
    if signer.status != Active || signer.kind != Installation || signer.installId != b.signerInstall {
      return false;
    }
    if recovery.status != Active || recovery.kind != Recovery {
      return false;
    }
    ok := b.signedBy == signer.publicKey;
  }

  class Machine {
    const op: OperatorId
    const store: AuthorityStore

    constructor (operator: OperatorId)
      ensures op == operator && fresh(store) && fresh(store.ledger) && store.Value() == EmptyDb
    {
      op := operator;
      store := new AuthorityStore();
    }

    ghost function Value(): Db
      reads store, store.ledger
    {
      store.Value()
    }

    /** `reconcile` against the signed ledger, then the one active row. */
    method OpenReconciledKey() returns (r: Result<KeyId>)
      ensures r == ReconciledKey(Value(), op)
    {
      hide Accepted, KeysAfter, RowsAgree, ActiveBinding;
      var anchor := store.AssertWritesAllowed();
      if anchor.Rejected? {
        return Rejected;
      }
      var chain := store.ledger.VerifyAuthorityChain(op, None, None, None, 0, true);
      AcceptedGenesis(store.ledger.rows, op);
      if chain.Rejected? || !RowsAgree(store.ledger.rows, store.keyRows) {
        return Rejected;
      }
      r := ActiveKey();
    }

    /** `_active_private_key`: the reconciled key, confirmed by the chain. */
    method OpenSigningKey() returns (r: Result<KeyId>)
      ensures r == SigningKey(Value(), op)
    {
      hide Accepted, KeysAfter, RowsAgree, ActiveBinding;
      var id := OpenReconciledKey();
      if id.Rejected? {
        return Rejected;
      }
      var chain := store.ledger.VerifyAuthorityChain(op, None, None, None, 0, true);
      AcceptedGenesis(store.ledger.rows, op);
      if id.value !in chain.value.keys || chain.value.keys[id.value].status != Active || chain.value.keys[id.value].kind != Installation {
        return Rejected;
      }
      r := id;
    }

    /** Append an event signed with the given key. */
    method AppendSigned(eventId: string, kind: EventKind, install: InstallId, keyId: KeyId, details: Details,
                        signedBy: KeyId, privateKeyOf: Bytes, at: int) returns (ok: bool)
      modifies store, store.ledger
      ensures ok == AppendEvent(old(Value()), eventId, kind, op, install, keyId, signedBy, privateKeyOf, details, at).Ok?
      ensures Value() == if ok then AppendEvent(old(Value()), eventId, kind, op, install, keyId, signedBy, privateKeyOf, details, at).value
                         else old(Value())
    {
      var row := store.ledger.Append(eventId, kind, op, install, keyId, details, signedBy, privateKeyOf, at);
      ok := row.Ok?;
    }

    method InsertKey(id: KeyId, row: KeyRow) returns (ok: bool)
      modifies store
      ensures ok == InsertKeyRow(old(Value()), id, row).Ok?
      ensures Value() == if ok then InsertKeyRow(old(Value()), id, row).value else old(Value())
    {
      if id in store.keyRows {
        return false;
      }
      if row.status == Active && exists k | k in store.keyRows :: store.keyRows[k].status == Active && store.keyRows[k].installId == row.installId {
        return false;
      }
      store.keyRows := store.keyRows[id := row];
      ok := true;
    }

    method MarkKey(id: KeyId, status: KeyStatus)
      modifies store
      ensures Value() == SetKeyStatus(old(Value()), id, status)
    {
      if id in store.keyRows {
        store.keyRows := store.keyRows[id := store.keyRows[id].(status := status)];
      }
    }

    /** Replay the ledger; on success move the anchor to its head. */
    method ReplayThenAdvance(now: int) returns (ok: bool)
      modifies store
      ensures ok == ReplayAndAdvance(old(Value()), op, now).Ok?
      ensures Value() == if ok then ReplayAndAdvance(old(Value()), op, now).value else old(Value())
    {
      hide KeysAfter;
      var chain := store.ledger.VerifyAuthorityChain(op, None, None, None, now, true);
      if chain.Rejected? {
        return false;
      }
      ok := store.AdvanceToLocalHead(chain.value, now);
    }

    /** `create_checkpoint`: verify, then sign the head. */
    method IssueCheckpoint(signer: KeyId, privateKeyOf: Bytes, ttl: int, issued: int, prior: Option<Digest>) returns (r: Result<Checkpoint>)
      ensures r == NewCheckpoint(store.ledger.rows, op, signer, privateKeyOf, issued, ttl, prior)
    {
      hide KeysAfter, Accepted, KeyStateSha;
      if ttl < 1 || ttl > DAY_SECONDS {
        return Rejected;
      }
      var chain := store.ledger.VerifyAuthorityChain(op, None, None, None, issued, true);
      if chain.Rejected? {
        return Rejected;
      }
      var v := chain.value;
      if signer !in v.keys || v.keys[signer].status != Active {
        return Rejected;
      }
      var body := CheckpointBody(op, v.store, v.headSequence, v.headSha, v.genesisSha, v.keyStateSha, prior, signer,
                                 CertificateOf(v.keys[signer]), issued, issued + ttl * SECOND);
      r := Ok(Checkpoint(body, Sign(privateKeyOf, CheckpointMessage(body))));
    }

    method IssueAndPin(signer: KeyId, privateKeyOf: Bytes, ttl: int, issued: int, now: int) returns (ok: bool)
      modifies store
      ensures ok == CheckpointAndPin(old(Value()), op, signer, privateKeyOf, ttl, issued, now).Ok?
      ensures Value() == if ok then CheckpointAndPin(old(Value()), op, signer, privateKeyOf, ttl, issued, now).value else old(Value())
    {
      hide NewCheckpoint, PinLocal;
      var anchor := store.AssertWritesAllowed();
      if anchor.Rejected? {
        return false;
      }
      var c := IssueCheckpoint(signer, privateKeyOf, ttl, issued, anchor.value.checkpointSha);
      if c.Rejected? {
        return false;
      }
      ok := store.PinLocalCheckpoint(c.value, now, true);
    }

    /** The first-trust ceremony. */
    method EnrollMachine(storeId: StoreId, install: InstallId, key: NewKey, recovery: Option<KeyBinding>, eventId: string,
                         t0: int, t1: int, t2: int) returns (ok: bool)
      modifies store, store.ledger
      ensures ok == Enroll(old(Value()), op, storeId, install, key, recovery, eventId, t0, t1, t2).Ok?
      ensures Value() == if ok then Enroll(old(Value()), op, storeId, install, key, recovery, eventId, t0, t1, t2).value else old(Value())
    {
      hide Accepted, KeysAfter, KeyStateSha, Establish, NewCheckpoint;
      var saved := store.Value();
      if |store.ledger.rows| != 0 {
        return false;
      }
      var genesis := Genesis(1, eventId, Enrollment, op, install, key.keyId, t0, None, storeId, key.publicKey,
                             FingerprintDigest(key.publicKey), key.nonce, key.blob, recovery, None);
      store.ledger.rows := [Row(1, ColumnsOf(genesis), genesis, EventDigest(genesis), Sign(key.publicKey, LedgerMessage(genesis)))];
      ok := InsertKey(key.keyId, KeyRow(install, storeId, key.publicKey, Active, 1, key.blob));
      if ok {
        var chain := store.ledger.VerifyAuthorityChain(op, Some(storeId), None, None, t1, true);
        AcceptedGenesis(store.ledger.rows, op);
        ok := chain.Ok?;
        if ok {
          var c := IssueCheckpoint(key.keyId, key.publicKey, DAY_SECONDS, t1, None);
          ok := c.Ok?;
          if ok {
            ok := store.EstablishAnchor(chain.value,
                                        if recovery.Some? then Some(recovery.value.keyId) else None,
                                        if recovery.Some? then Some(recovery.value.publicKey) else None, Some(c.value), [], t2);
          }
        }
      }
      if !ok {
        store.Restore(saved);
      }
    }

    method CheckpointNow(ttl: int, issued: int, now: int) returns (ok: bool)
      modifies store
      ensures ok == CreateCheckpoint(old(Value()), op, ttl, issued, now).Ok?
      ensures Value() == if ok then CreateCheckpoint(old(Value()), op, ttl, issued, now).value else old(Value())
    {
      hide SigningKey, CheckpointAndPin;
      var signer := OpenSigningKey();
      if signer.Rejected? {
        return false;
      }
      HeldKeyRow(Value(), op);
      ok := IssueAndPin(signer.value, store.keyRows[signer.value].publicKey, ttl, issued, now);
    }

    /** The one active row, already covered by the ledger. */
    method ActiveKey() returns (r: Result<KeyId>)
      ensures r == ActiveBinding(Value())
    {
      var active := ActiveRows(store.keyRows);
      if |active| != 1 {
        return Rejected;
      }
      var id :| id in active;
      assert active == {id} by {
        assert |active - {id}| == 0;
      }
      if |store.ledger.rows| == 0 || |store.ledger.rows| < store.keyRows[id].sequence {
        return Rejected;
      }
      r := Ok(id);
    }

    method RotateKey(key: NewKey, eventId: string, at: int, now: int) returns (ok: bool)
      modifies store, store.ledger
      ensures ok == Rotate(old(Value()), op, key, eventId, at, now).Ok?
      ensures Value() == if ok then Rotate(old(Value()), op, key, eventId, at, now).value else old(Value())
    {
      hide SigningKey, RotateWrite;
      var signer := OpenSigningKey();
      if signer.Rejected? {
        return false;
      }
      HeldKeyRow(Value(), op);
      ok := RotateWith(signer.value, store.keyRows[signer.value], key, eventId, at, now);
    }

    /** The write transaction, with the key opened before it. */
    method RotateWith(oldId: KeyId, oldRow: KeyRow, key: NewKey, eventId: string, at: int, now: int) returns (ok: bool)
      modifies store, store.ledger
      ensures ok == RotateWrite(old(Value()), op, oldId, oldRow, key, eventId, at, now).Ok?
      ensures Value() == if ok then RotateWrite(old(Value()), op, oldId, oldRow, key, eventId, at, now).value else old(Value())
    {
      hide ActiveBinding, AppendEvent, InsertKeyRow, ReplayAndAdvance, SetKeyStatus;
      var saved := store.Value();
      var current := ActiveKey();
      if current.Rejected? || current.value != oldId {
        return false;
      }
      ok := AppendSigned(eventId, KeyRotated, oldRow.installId, key.keyId,
                         KeyDetails(BindingOf(key, oldRow.installId), Some(key.blob), None, Some(oldId), None),
                         oldId, oldRow.publicKey, at);
      if ok {
        MarkKey(oldId, Retired);
        ok := InsertKey(key.keyId, KeyRow(oldRow.installId, oldRow.store, key.publicKey, Active, |store.ledger.rows|, key.blob));
        if ok {
          ok := ReplayThenAdvance(now);
        }
      }
      if !ok {
        store.Restore(saved);
      }
    }

    method AuthorizeRequest(request: PairingRequest, eventId: string, at: int, issued: int, now: int) returns (r: Result<Package>)
      modifies store, store.ledger
      ensures r.Ok? == AuthorizePairing(old(Value()), op, request, eventId, at, issued, now).Ok?
      ensures r.Ok? ==> (Value(), r.value) == AuthorizePairing(old(Value()), op, request, eventId, at, issued, now).value
      ensures r.Rejected? ==> Value() == old(Value())
    {
      hide SigningKey, AppendEvent, CheckpointAndPin, ReplayAndAdvance, HistoryOf;
      var saved := store.Value();
      var signer := OpenSigningKey();
      if signer.Rejected? {
        return Rejected;
      }
      HeldKeyRow(saved, op);
      var row := store.keyRows[signer.value];
      var anchor := store.anchor.value;
      if request.operator != op || at >= request.expiresAt || request.store != row.store
         || request.expectedSequence != anchor.pinnedSequence + 1 {
        return Rejected;
      }
      var authorization := AuthorizationFor(request, op, row.store, anchor.pinnedHead);
      var ok := AppendSigned(eventId, InstallationPaired, request.binding.installId, request.binding.keyId,
                             KeyDetails(request.binding, Some(request.blob), Some(authorization), None, None),
                             signer.value, row.publicKey, at);
      if ok {
        ok := ReplayThenAdvance(now);
        if ok {
          ok := IssueAndPin(signer.value, row.publicKey, DAY_SECONDS, issued, now);
        }
      }
      if !ok {
        store.Restore(saved);
        return Rejected;
      }
      r := Ok(Package(request, TransportFrom(store.Value(), op, row.store), store.ledger.rows[|store.ledger.rows| - 1].sha));
    }

    method CreateRecoveryBundle(recovery: KeyBinding, eventId: string, at: int, issued: int, now: int) returns (r: Result<Bundle>)
      modifies store, store.ledger
      ensures r.Ok? == CreateRecovery(old(Value()), op, recovery, eventId, at, issued, now).Ok?
      ensures r.Ok? ==> (Value(), r.value) == CreateRecovery(old(Value()), op, recovery, eventId, at, issued, now).value
      ensures r.Rejected? ==> Value() == old(Value())
    {
      hide SigningKey, AppendEvent, CheckpointAndPin, Accepted, HistoryOf;
      var saved := store.Value();
      var signer := OpenSigningKey();
      if signer.Rejected? {
        return Rejected;
      }
      HeldKeyRow(saved, op);
      var row := store.keyRows[signer.value];
      var ok := AppendSigned(eventId, RecoveryCreated, recovery.installId, recovery.keyId,
                             KeyDetails(recovery, None, None, None, None), signer.value, row.publicKey, at);
      if ok {
        var chain := store.ledger.VerifyAuthorityChain(op, None, None, None, at, true);
        ok := chain.Ok?;
        if ok {
          ok := IssueAndPin(signer.value, row.publicKey, DAY_SECONDS, issued, now);
        }
      }
      if !ok {
        store.Restore(saved);
        return Rejected;
      }
      var anchor := store.anchor.value;
      var rows := store.ledger.rows;
      r := Ok(Bundle(op, row.store, rows[0].sha, rows, HistoryOf(saved.pins) + [anchor.checkpoint.value],
                     |rows|, rows[|rows| - 1].sha, recovery.keyId, recovery.publicKey, signer.value, row.installId, row.publicKey));
      store.anchor := Some(anchor.(recoveryKey := Some(recovery.keyId), recoveryPublicKey := Some(recovery.publicKey), updatedAt := at));
    }

    /** Who signs: the supplied recovery credential, or the local key. */
    method OpenStateSigner(q: StateRequest, bundle: Option<Bundle>) returns (r: Result<(KeyId, Bytes)>)
      ensures r == StateSigner(Value(), op, q, bundle)
    {
      hide SigningKey, BundleOk, KeysAfter;
      if bundle.Some? {
        var verified := VerifyBundle(bundle.value, false, 0);
        if !verified || !IsActive(KeysAfter(store.ledger.rows), bundle.value.recoveryKey) {
          return Rejected;
        }
        return Ok((bundle.value.recoveryKey, bundle.value.recoveryPublicKey));
      }
      var active := ActiveRows(store.keyRows);
      if |active| != 1 {
        return Rejected;
      }
      var local :| local in active;
      assert active == {local} by {
        assert |active - {local}| == 0;
      }
      if |store.ledger.rows| == 0 || |store.ledger.rows| < store.keyRows[local].sequence || (q.compromised && local == q.target) {
        return Rejected;
      }
      var signer := OpenSigningKey();
      if signer.Rejected? {
        return Rejected;
      }
      HeldKeyRow(Value(), op);
      r := Ok((signer.value, store.keyRows[signer.value].publicKey));
    }

    method ChangeState(q: StateRequest, bundle: Option<Bundle>, eventId: string, proofId: string, at: int, now: int) returns (ok: bool)
      modifies store, store.ledger
      ensures ok == ChangeKeyState(old(Value()), op, q, bundle, eventId, proofId, at, now).Ok?
      ensures Value() == if ok then ChangeKeyState(old(Value()), op, q, bundle, eventId, proofId, at, now).value else old(Value())
    {
      hide StateSigner, StateWrite, Accepted, KeysAfter, Blank;
      var chain := store.ledger.VerifyAuthorityChain(op, None, None, None, at, true);
      if Blank(q.reason) || chain.Rejected? || q.target !in chain.value.keys || chain.value.keys[q.target].status != Active {
        return false;
      }
      var target := chain.value.keys[q.target];
      var signer := OpenStateSigner(q, bundle);
      if signer.Rejected? {
        return false;
      }
      ok := ChangeStateWith(q, target.kind, target.installId, signer.value, eventId, proofId, at, now);
    }

    /** The write transaction, with the target and the signer read before it. */
    method ChangeStateWith(q: StateRequest, kind: KeyKind, install: InstallId, signer: (KeyId, Bytes), eventId: string, proofId: string,
                           at: int, now: int) returns (ok: bool)
      modifies store, store.ledger
      ensures ok == StateWrite(old(Value()), op, q, kind, install, signer, eventId, proofId, at, now).Ok?
      ensures Value() == if ok then StateWrite(old(Value()), op, q, kind, install, signer, eventId, proofId, at, now).value else old(Value())
    {
      hide AppendEvent, ReplayAndAdvance, SetKeyStatus, Accepted, KeysAfter, Retain;
      var saved := store.Value();
      ok := AppendSigned(eventId, StateKind(q, kind), install, q.target, StateDetailsFor(q, install), signer.0, signer.1, at);
      if ok {
        MarkKey(q.target, if q.compromised then Compromised else Revoked);
        ok := ReplayThenAdvance(now);
        if ok && q.compromised {
          AcceptedGenesis(store.ledger.rows, op);
          var last := store.ledger.rows[|store.ledger.rows| - 1];
          ok := store.RetainConflict(proofId, COMPROMISE_HOLD, ProofDigest(last), now);
        }
      }
      if !ok {
        store.Restore(saved);
      }
    }

    method AdjudicateConflict(proofId: string, chosen: Digest, reason: string, bundle: Bundle, eventId: string, at: int) returns (ok: bool)
      modifies store, store.ledger
      ensures ok == Adjudicate(old(Value()), op, proofId, chosen, reason, bundle, eventId, at).Ok?
      ensures Value() == if ok then Adjudicate(old(Value()), op, proofId, chosen, reason, bundle, eventId, at).value else old(Value())
    {
      hide ReadConflict, DecisionWrite;
      var decision := ReadPending(proofId, chosen, reason, bundle, at);
      if decision.Rejected? {
        return false;
      }
      ok := WriteDecision(decision.value, eventId, at);
    }

    /** The first connection: nothing is written and nothing is locked. */
    method ReadPending(proofId: string, chosen: Digest, reason: string, bundle: Bundle, at: int) returns (r: Result<Decision>)
      ensures r == ReadConflict(Value(), op, proofId, chosen, reason, bundle)
    {
      hide BundleOk, Accepted, KeysAfter;
      var supplied := VerifyBundle(bundle, false, 0);
      if !supplied || store.anchor == None || store.anchor.value.blockReason == None || proofId !in store.proofs {
        return Rejected;
      }
      var proof := store.proofs[proofId];
      var chain := store.ledger.VerifyAuthorityChain(op, None, None, None, at, true);
      if proof.adjudication.Some? || chain.Rejected? {
        return Rejected;
      }
      var signer := bundle.recoveryKey;
      if signer !in chain.value.keys || chain.value.keys[signer].status != Active || chain.value.keys[signer].kind != Recovery {
        return Rejected;
      }
      if Some(chosen) != store.anchor.value.checkpointSha {
        return Rejected;
      }
      r := Ok(Decision(proofId, chosen, proof.candidateSha, reason, signer, chain.value.keys[signer].installId, bundle.recoveryPublicKey));
    }

    /** The second connection: one transaction that does not look at the conflict again. */
    method WriteDecision(d: Decision, eventId: string, at: int) returns (ok: bool)
      modifies store, store.ledger
      ensures ok == DecisionWrite(old(Value()), op, d, eventId, at).Ok?
      ensures Value() == if ok then DecisionWrite(old(Value()), op, d, eventId, at).value else old(Value())
    {
      hide Accepted, KeysAfter, KeyStateSha;
      var saved := store.Value();
      ok := AppendSigned(eventId, ConflictAdjudicated, d.install, d.signer,
                         AdjudicationDetails(d.proofId, d.chosen, d.candidateSha, d.reason, at), d.signer, d.signerKey, at);
      if ok {
        var verified := store.ledger.VerifyAuthorityChain(op, None, None, None, at, true);
        ok := verified.Ok?;
        if ok {
          var v := verified.value;
          if d.proofId in store.proofs {
            store.proofs := store.proofs[d.proofId := store.proofs[d.proofId].(adjudication := Some(v.headSha))];
          }
          if store.anchor.Some? {
            store.anchor := Some(store.anchor.value.(
              pinnedSequence := v.headSequence, pinnedHead := v.headSha, keyStateSha := v.keyStateSha,
              updatedAt := at, blockReason := None));
          }
        }
      }
      if !ok {
        store.Restore(saved);
      }
    }

    /** Pin carried checkpoints one after another. */
    method PinCarried(items: seq<Checkpoint>, now: int) returns (ok: bool)
      modifies store
      ensures ok == PinAll(old(Value()), items, now).Ok?
      ensures ok ==> Value() == PinAll(old(Value()), items, now).value
      ensures store.ledger.rows == old(store.ledger.rows)
    {
      hide PinLocal;
      var i := 0;
      while i < |items|
        invariant 0 <= i <= |items|
        invariant PinAll(Value(), items[i..], now) == PinAll(old(Value()), items, now)
        invariant store.ledger.rows == old(store.ledger.rows)
      {
        assert items[i..][0] == items[i] && items[i..][1..] == items[i + 1..];
        var pinned := store.PinLocalCheckpoint(items[i], now, false);
        if !pinned {
          return false;
        }
        i := i + 1;
      }
      ok := true;
    }

    /** Everything finalization writes; the caller rolls back when it fails. */
    method CarryIn(package: Package, known: Digest, now: int) returns (ok: bool)
      modifies store, store.ledger
      ensures ok == CarryPackage(old(Value()), op, package, known, now).Ok?
      ensures ok ==> Value() == CarryPackage(old(Value()), op, package, known, now).value
    {
      hide PinAll, InsertKeyRow, ReplayAndAdvance, DistinctEventIds, CertificateBinds, KeyRowFor;
      if |store.ledger.rows| != 0 || !DistinctEventIds(package.transport.ledger) {
        return false;
      }
      store.ledger.rows := package.transport.ledger;
      var request := package.request;
      var start := IndexOf(package.transport.history, known);
      if start == None {
        return false;
      }
      ok := PinCarried(package.transport.history[start.value + 1..], now);
      if !ok {
        return false;
      }
      var certificate := RowWithSha(store.ledger.rows, package.certificateSha);
      if certificate == None || !CertificateBinds(certificate.value, request) {
        return false;
      }
      ok := InsertKey(request.binding.keyId, KeyRowFor(request, certificate.value.sequence));
      if !ok {
        return false;
      }
      ok := ReplayThenAdvance(now);
      if ok {
        store.requests := store.requests[request.requestId := PendingRequest(request, true)];
      }
    }

    method FinalizeRequest(package: Package, now: int) returns (ok: bool)
      modifies store, store.ledger
      ensures ok == FinalizePairing(old(Value()), op, package, now).Ok?
      ensures Value() == if ok then FinalizePairing(old(Value()), op, package, now).value else old(Value())
    {
      hide TransportOk, PackageExpected, CarryPackage;
      var saved := store.Value();
      var verified := VerifyTransport(package.transport, now);
      if !verified {
        return false;
      }
      var anchor := store.AssertWritesAllowed();
      if anchor.Rejected? || !PackageExpected(saved, package, anchor.value) || anchor.value.checkpointSha == None {
        return false;
      }
      ok := CarryIn(package, anchor.value.checkpointSha.value, now);
      if !ok {
        store.Restore(saved);
      }
    }
  }

  lemma HeldKeyRow(db: Db, op: OperatorId)
    requires SigningKey(db, op).Ok?
    ensures SigningKey(db, op).value in db.keyRows && db.anchor.Some? && !db.anchor.value.Blocked() && |db.ledger| > 0
  {
    hide Accepted, KeysAfter, RowsAgree;
    assert SigningKey(db, op).value in ActiveRows(db.keyRows);
  }
}
