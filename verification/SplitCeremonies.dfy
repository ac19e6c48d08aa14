/** Ceremonies as the program runs them: a read in one connection, the terminal in
    between, and a write in another, interleaved with the ceremonies of other processes. */
module SplitCeremonies {
  import opened Outcomes
  import opened AuthorityData
  import opened AuthorityLedger
  import opened LedgerHistory
  import opened AuthorityTrust
  import opened AuthorityService
  import opened ServiceRuns

  // ---------- the two halves ----------

  /** The read of a ceremony succeeds on this state. */
  ghost predicate Opens(seen: Db, op: OperatorId, c: Ceremony) {
    match c
    case CheckpointCeremony(_, _, _) => SigningKey(seen, op).Ok?
    case RotateCeremony(_, _, _, _) => SigningKey(seen, op).Ok?
    case AuthorizeCeremony(request, _, at, _, _) =>
      SigningKey(seen, op).Ok? && RequestCurrent(op, seen.keyRows[SigningKey(seen, op).value], request, at)
    case RecoveryCeremony(_, _, _, _, _) => SigningKey(seen, op).Ok?
    case StateCeremony(q, bundle, _, _, _, _) =>
      !Blank(q.reason) && Accepted(seen.ledger, op) && IsActive(KeysAfter(seen.ledger), q.target) && StateSigner(seen, op, q, bundle).Ok?
    case AdjudicateCeremony(proofId, chosen, reason, bundle, _, _) => ReadConflict(seen, op, proofId, chosen, reason, bundle).Ok?
  }

  /** The write of a ceremony that read `seen`, on the state it finds then. */
  ghost function Writes(seen: Db, db: Db, op: OperatorId, c: Ceremony): Result<Db>
    requires Opens(seen, op, c)
  {
    match c
    case CheckpointCeremony(ttl, issued, now) =>
      var signer := SigningKey(seen, op).value;
      CheckpointAndPin(db, op, signer, seen.keyRows[signer].publicKey, ttl, issued, now)
    case RotateCeremony(key, eventId, at, now) =>
      var signer := SigningKey(seen, op).value;
      RotateWrite(db, op, signer, seen.keyRows[signer], key, eventId, at, now)
    case AuthorizeCeremony(request, eventId, at, issued, now) =>
      var signer := SigningKey(seen, op).value;
      var r :- AuthorizeWrite(db, op, signer, seen.keyRows[signer], request, eventId, at, issued, now);
      Ok(r.0)
    case RecoveryCeremony(recovery, eventId, at, issued, now) =>
      var signer := SigningKey(seen, op).value;
      var r :- RecoveryWrite(db, op, signer, seen.keyRows[signer], recovery, eventId, at, issued, now);
      Ok(r.0)
    case StateCeremony(q, bundle, eventId, proofId, at, now) =>
      var target := KeysAfter(seen.ledger)[q.target];
      StateWrite(db, op, q, target.kind, target.installId, StateSigner(seen, op, q, bundle).value, eventId, proofId, at, now)
    case AdjudicateCeremony(proofId, chosen, reason, bundle, eventId, at) =>
      DecisionWrite(db, op, ReadConflict(seen, op, proofId, chosen, reason, bundle).value, eventId, at)
  }

  /** With nothing in between the halves are the ceremony. */
  lemma HalvesMakeTheCeremony(db: Db, op: OperatorId, c: Ceremony)
    ensures Attempt(db, op, c) == if Opens(db, op, c) then Writes(db, db, op, c) else Rejected
  {
    hide SigningKey, StateSigner, ReadConflict, CheckpointAndPin, RotateWrite, AuthorizeWrite, RecoveryWrite, StateWrite, DecisionWrite,
      Accepted, KeysAfter, Blank, RequestCurrent;
  }

  // ---------- what lasts between the halves ----------

  predicate SameKeyRow(a: KeyRow, b: KeyRow) { a.(status := Active) == b.(status := Active) }

  predicate RowsLast(a: map<KeyId, KeyRow>, b: map<KeyId, KeyRow>) {
    forall id | id in a :: id in b && SameKeyRow(a[id], b[id])
  }

  /** Retained proofs stay, and recorded decisions are not replaced. */
  predicate ProofsLast(a: map<string, Proof>, b: map<string, Proof>) {
    forall p | p in a :: p in b && (a[p].adjudication.Some? ==> b[p].adjudication == a[p].adjudication)
  }

  /** `b` is a later state of the machine than `a`; while a proof stays open nothing has happened. */
  predicate Later(a: Db, b: Db) {
    && a.ledger <= b.ledger && RowsLast(a.keyRows, b.keyRows) && ProofsLast(a.proofs, b.proofs)
    && (forall p | p in Open(a.proofs) && p in Open(b.proofs) :: b == a)
  }

  lemma LaterExtends(a: Db, b: Db, c: Db)
    requires Later(a, b) && Later(b, c)
    ensures Later(a, c)
  {
    forall p | p in Open(a.proofs) && p in Open(c.proofs)
      ensures c == a
    {
      assert p in Open(b.proofs);
    }
  }

  /** The signer a ceremony has opened is still the signing key if it is still active. */
  lemma SignerStill(seen: Db, db: Db, op: OperatorId, signer: KeyId)
    requires Coherent(seen, op) && Coherent(db, op) && Later(seen, db)
    requires SigningKey(seen, op) == Ok(signer)
    requires WritableAnchor(db).Ok? && IsActive(KeysAfter(db.ledger), signer)
    ensures SigningKey(db, op) == Ok(signer) && signer in db.keyRows && db.keyRows[signer] == seen.keyRows[signer]
  {
    hide Accepted, KeysAfter, RowAgrees;
    SigningKeyFacts(seen, op);
    assert signer in ActiveRows(seen.keyRows);
    RowHasStatus(seen, signer);
    RowHasStatus(db, signer);
    assert signer in ActiveRows(db.keyRows);
    assert ActiveRows(db.keyRows) == {signer};
    AnchoredLedger(seen, op);
    SameKey(seen, db, op, signer);
  }

  lemma RowHasStatus(db: Db, id: KeyId)
    requires RowsAgree(db.ledger, db.keyRows) && id in db.keyRows
    ensures id in KeysAfter(db.ledger) && db.keyRows[id].status == KeysAfter(db.ledger)[id].status
    ensures 1 <= db.keyRows[id].sequence <= |db.ledger|
  {
    hide KeysAfter;
    assert RowAgrees(db.ledger, KeysAfter(db.ledger), id, db.keyRows[id]);
  }

  /** A key of the earlier ledger has the same certificate in the later one. */
  lemma SameKey(seen: Db, db: Db, op: OperatorId, id: KeyId)
    requires Accepted(seen.ledger, op) && |seen.ledger| > 0 && Accepted(db.ledger, op) && seen.ledger <= db.ledger
    requires id in KeysAfter(seen.ledger)
    ensures id in KeysAfter(db.ledger) && SameCertificate(KeysAfter(seen.ledger)[id], KeysAfter(db.ledger)[id])
  {
    hide KeysAfter, Accepted;
    KeysPersist(db.ledger, |seen.ledger|, |db.ledger|, op);
    assert db.ledger[..|seen.ledger|] == seen.ledger && db.ledger[..|db.ledger|] == db.ledger;
  }

  // ---------- the writes' own checks ----------

  lemma SignedByActive(db: Db, op: OperatorId, row: Row)
    requires Accepted(db.ledger, op) && |db.ledger| > 0 && Accepted(db.ledger + [row], op)
    ensures IsActive(KeysAfter(db.ledger), row.event.SignerId())
  {
    hide Accepted, KeysAfter;
    AppendedFacts(db, row, op);
  }

  lemma AdvanceNeedsWritable(db: Db, op: OperatorId, now: int)
    requires ReplayAndAdvance(db, op, now).Ok?
    ensures WritableAnchor(db).Ok? && Accepted(db.ledger, op)
  {
    hide Accepted, KeysAfter;
  }

  lemma CheckpointNeedsActive(db: Db, op: OperatorId, signer: KeyId, privateKeyOf: Bytes, ttl: int, issued: int, now: int)
    requires CheckpointAndPin(db, op, signer, privateKeyOf, ttl, issued, now).Ok?
    ensures WritableAnchor(db).Ok? && IsActive(KeysAfter(db.ledger), signer)
  {
    hide Accepted, KeysAfter, PinLocal;
  }

  /** A rotation's write finds the row it opened still active, an event signed by an active key, and open writes. */
  lemma RotateWriteChecks(db: Db, op: OperatorId, signer: KeyId, row: KeyRow, key: NewKey, eventId: string, at: int, now: int)
    requires RotateWrite(db, op, signer, row, key, eventId, at, now).Ok? && Accepted(db.ledger, op) && |db.ledger| > 0
    ensures WritableAnchor(db).Ok? && IsActive(KeysAfter(db.ledger), signer)
  {
    hide Accepted, KeysAfter, ReplayAndAdvance, ActiveBinding;
    var details := KeyDetails(BindingOf(key, row.installId), Some(key.blob), None, Some(signer), None);
    var appended := AppendEvent(db, eventId, KeyRotated, op, row.installId, key.keyId, signer, row.publicKey, details, at).value;
    var keyed := InsertKeyRow(SetKeyStatus(appended, signer, Retired), key.keyId,
      KeyRow(row.installId, row.store, key.publicKey, Active, |appended.ledger|, key.blob)).value;
    AdvanceNeedsWritable(keyed, op, now);
    SignedByActive(db, op, appended.ledger[|db.ledger|]);
  }

  lemma AuthorizeWriteChecks(db: Db, op: OperatorId, signer: KeyId, row: KeyRow, request: PairingRequest, eventId: string, at: int, issued: int, now: int)
    requires AuthorizeWrite(db, op, signer, row, request, eventId, at, issued, now).Ok? && Accepted(db.ledger, op) && |db.ledger| > 0
    ensures WritableAnchor(db).Ok? && IsActive(KeysAfter(db.ledger), signer)
  {
    hide Accepted, KeysAfter, ReplayAndAdvance, CheckpointAndPin, TransportFrom;
    var details := KeyDetails(request.binding, Some(request.blob),
                              Some(AuthorizationFor(request, op, row.store, db.anchor.value.pinnedHead)), None, None);
    var appended := AppendEvent(db, eventId, InstallationPaired, op, request.binding.installId, request.binding.keyId,
                                signer, row.publicKey, details, at).value;
    AdvanceNeedsWritable(appended, op, now);
    SignedByActive(db, op, appended.ledger[|db.ledger|]);
  }

  lemma RecoveryWriteChecks(db: Db, op: OperatorId, signer: KeyId, row: KeyRow, recovery: KeyBinding, eventId: string, at: int, issued: int, now: int)
    requires RecoveryWrite(db, op, signer, row, recovery, eventId, at, issued, now).Ok? && Accepted(db.ledger, op) && |db.ledger| > 0
    ensures WritableAnchor(db).Ok? && IsActive(KeysAfter(db.ledger), signer)
  {
    hide Accepted, KeysAfter, CheckpointAndPin, HistoryOf;
    var appended := AppendEvent(db, eventId, RecoveryCreated, op, recovery.installId, recovery.keyId, signer, row.publicKey,
                                KeyDetails(recovery, None, None, None, None), at).value;
    SignedByActive(db, op, appended.ledger[|db.ledger|]);
  }

  /** A key-state write is refused unless its target is still active and its signer, another key for a compromise, too. */
  lemma StateWriteChecks(db: Db, op: OperatorId, q: StateRequest, kind: KeyKind, install: InstallId, signer: (KeyId, Bytes),
                         eventId: string, proofId: string, at: int, now: int)
    requires StateWrite(db, op, q, kind, install, signer, eventId, proofId, at, now).Ok? && Accepted(db.ledger, op) && |db.ledger| > 0
    ensures WritableAnchor(db).Ok? && IsActive(KeysAfter(db.ledger), signer.0) && IsActive(KeysAfter(db.ledger), q.target)
    ensures q.compromised ==> signer.0 != q.target
  {
    hide Accepted, KeysAfter, ReplayAndAdvance, Retain;
    var appended := AppendEvent(db, eventId, StateKind(q, kind), op, install, q.target, signer.0, signer.1,
                                StateDetailsFor(q, install), at).value;
    AdvanceNeedsWritable(SetKeyStatus(appended, q.target, if q.compromised then Compromised else Revoked), op, now);
    var row := appended.ledger[|db.ledger|];
    SignedByActive(db, op, row);
    AppendedFacts(db, row, op);
  }

  // ---------- every write but an adjudication's is the ceremony at its moment ----------

  lemma StateSignerStill(seen: Db, db: Db, op: OperatorId, q: StateRequest, bundle: Option<Bundle>)
    requires Coherent(seen, op) && Coherent(db, op) && Later(seen, db) && StateSigner(seen, op, q, bundle).Ok?
    requires var signer := StateSigner(seen, op, q, bundle).value;
      IsActive(KeysAfter(db.ledger), signer.0) && WritableAnchor(db).Ok? && (q.compromised ==> signer.0 != q.target)
    ensures StateSigner(db, op, q, bundle) == StateSigner(seen, op, q, bundle)
  {
    hide Accepted, KeysAfter, RowsAgree, BundleOk, AnchoredAtHead, ActiveBinding;
    if bundle == None {
      var signer := SigningKey(seen, op).value;
      SignerStill(seen, db, op, signer);
      assert ActiveBinding(db) == Ok(signer) by { SigningKeyIsBinding(db, op); }
    }
  }

  lemma SigningKeyIsBinding(db: Db, op: OperatorId)
    requires SigningKey(db, op).Ok?
    ensures ActiveBinding(db) == SigningKey(db, op)
  {
    hide Accepted, KeysAfter, RowsAgree, ActiveBinding;
  }

  /** A write that commits on a later coherent state, other than an adjudication's, is
      exactly the ceremony performed at that moment. */
  lemma WriteIsAtomic(seen: Db, db: Db, op: OperatorId, c: Ceremony)
    requires Coherent(seen, op) && Coherent(db, op) && Later(seen, db)
    requires Opens(seen, op, c) && Writes(seen, db, op, c).Ok? && !c.AdjudicateCeremony?
    ensures Attempt(db, op, c) == Writes(seen, db, op, c)
  {
    hide Coherent, Later, SigningKey, StateSigner, CheckpointAndPin, RotateWrite, AuthorizeWrite, RecoveryWrite, StateWrite, Accepted, KeysAfter, Blank,
      WritableAnchor;
    CoherentLedger(db, op);
    SignerHeld(seen, op);
    match c
    case CheckpointCeremony(ttl, issued, now) =>
      var signer := SigningKey(seen, op).value;
      CheckpointNeedsActive(db, op, signer, seen.keyRows[signer].publicKey, ttl, issued, now);
      SignerStill(seen, db, op, signer);
    case RotateCeremony(key, eventId, at, now) =>
      var signer := SigningKey(seen, op).value;
      RotateWriteChecks(db, op, signer, seen.keyRows[signer], key, eventId, at, now);
      SignerStill(seen, db, op, signer);
    case AuthorizeCeremony(request, eventId, at, issued, now) =>
      var signer := SigningKey(seen, op).value;
      AuthorizeWriteChecks(db, op, signer, seen.keyRows[signer], request, eventId, at, issued, now);
      SignerStill(seen, db, op, signer);
    case RecoveryCeremony(recovery, eventId, at, issued, now) =>
      var signer := SigningKey(seen, op).value;
      RecoveryWriteChecks(db, op, signer, seen.keyRows[signer], recovery, eventId, at, issued, now);
      SignerStill(seen, db, op, signer);
    case StateCeremony(q, bundle, eventId, proofId, at, now) =>
      var target := KeysAfter(seen.ledger)[q.target];
      StateWriteChecks(db, op, q, target.kind, target.installId, StateSigner(seen, op, q, bundle).value, eventId, proofId, at, now);
      StateSignerStill(seen, db, op, q, bundle);
      CoherentLedger(seen, op);
      LaterLedger(seen, db);
      SameKey(seen, db, op, q.target);
  }

  lemma SignerHeld(db: Db, op: OperatorId)
    ensures SigningKey(db, op).Ok? ==> SigningKey(db, op).value in db.keyRows
  {
    hide Accepted, KeysAfter, RowsAgree;
    if SigningKey(db, op).Ok? {
      SigningKeyFacts(db, op);
      assert SigningKey(db, op).value in ActiveRows(db.keyRows);
    }
  }

  lemma CoherentLedger(db: Db, op: OperatorId)
    requires Coherent(db, op)
    ensures Accepted(db.ledger, op) && |db.ledger| > 0
  {
    hide Accepted, KeysAfter;
  }

  lemma LaterLedger(a: Db, b: Db)
    requires Later(a, b)
    ensures a.ledger <= b.ledger
  {
  }

  // ---------- one committed ceremony makes a later state ----------

  lemma RotateLasts(db: Db, r: Db, op: OperatorId, key: NewKey, eventId: string, at: int, now: int)
    requires Rotate(db, op, key, eventId, at, now) == Ok(r)
    ensures RowsLast(db.keyRows, r.keyRows)
  {
    hide Rotate, ReplayAndAdvance;
    var signer, row := RotateSteps(db, op, key, eventId, at, now);
    AdvancedAtHead(Rotated(db, signer, key, row), op, now);
  }

  lemma StateChangeLasts(db: Db, r: Db, op: OperatorId, q: StateRequest, bundle: Option<Bundle>, eventId: string, proofId: string, at: int, now: int)
    requires ChangeKeyState(db, op, q, bundle, eventId, proofId, at, now) == Ok(r)
    ensures RowsLast(db.keyRows, r.keyRows) && ProofsLast(db.proofs, r.proofs)
    ensures forall p | p in r.proofs && r.proofs[p].adjudication.Some? :: p in db.proofs && r.proofs[p] == db.proofs[p]
  {
    hide StateRow, ChangeKeyState, ReplayAndAdvance, Accepted, KeysAfter, Marked;
    var signer, row := StateSteps(db, op, q, bundle, eventId, proofId, at, now);
    MarkedLasts(db, q, row);
    AdvancedAtHead(Marked(db, q, row), op, now);
    hide AnchoredAtHead;
  }

  lemma MarkedLasts(db: Db, q: StateRequest, row: Row)
    ensures RowsLast(db.keyRows, Marked(db, q, row).keyRows) && Marked(db, q, row).proofs == db.proofs
  {
  }

  lemma AdjudicationLasts(db: Db, r: Db, op: OperatorId, proofId: string, chosen: Digest, reason: string, bundle: Bundle, eventId: string, at: int)
    requires Adjudicate(db, op, proofId, chosen, reason, bundle, eventId, at) == Ok(r)
    ensures ProofsLast(db.proofs, r.proofs) && |r.ledger| == |db.ledger| + 1
    ensures forall p | p in r.proofs && r.proofs[p].adjudication.Some? ::
      (p in db.proofs && r.proofs[p] == db.proofs[p]) || r.proofs[p].adjudication == Some(r.ledger[|db.ledger|].sha)
  {
    hide Adjudicate, Accepted, KeysAfter, KeyStateSha, BundleOk;
    var row := AdjudicationSteps(db, op, proofId, chosen, reason, bundle, eventId, at);
  }

  /** Every recorded decision is the digest of a row of the ledger. */
  ghost predicate DecisionsInLedger(ledger: seq<Row>, proofs: map<string, Proof>) {
    forall p | p in proofs && proofs[p].adjudication.Some? :: RowHasSha(ledger, proofs[p].adjudication.value)
  }

  ghost predicate RowHasSha(ledger: seq<Row>, sha: Digest) { exists i :: 0 <= i < |ledger| && ledger[i].sha == sha }

  lemma RowHasShaExtends(a: seq<Row>, b: seq<Row>, sha: Digest)
    requires a <= b && RowHasSha(a, sha)
    ensures RowHasSha(b, sha)
  {
    var i :| 0 <= i < |a| && a[i].sha == sha;
    assert b[i].sha == sha;
  }

  /** What a committed ceremony leaves as it was. */
  lemma CommitLasts(db: Db, r: Db, op: OperatorId, c: Ceremony)
    requires Coherent(db, op) && Attempt(db, op, c) == Ok(r)
    ensures RowsLast(db.keyRows, r.keyRows) && ProofsLast(db.proofs, r.proofs)
    ensures forall p | p in r.proofs && r.proofs[p].adjudication.Some? ::
      (p in db.proofs && r.proofs[p] == db.proofs[p]) || (|r.ledger| > |db.ledger| && r.proofs[p].adjudication == Some(r.ledger[|db.ledger|].sha))
  {
    hide CreateCheckpoint, Rotate, AuthorizePairing, CreateRecovery, ChangeKeyState, Adjudicate, Coherent;
    match c
    case CheckpointCeremony(ttl, issued, now) => CheckpointKeeps(db, r, op, ttl, issued, now);
    case RotateCeremony(key, eventId, at, now) =>
      RotateLasts(db, r, op, key, eventId, at, now);
      RotateKeeps(db, r, op, key, eventId, at, now);
    case AuthorizeCeremony(request, eventId, at, issued, now) =>
      AuthorizeKeeps(db, r, AuthorizePairing(db, op, request, eventId, at, issued, now).value.1, op, request, eventId, at, issued, now);
    case RecoveryCeremony(recovery, eventId, at, issued, now) =>
      RecoveryKeeps(db, r, CreateRecovery(db, op, recovery, eventId, at, issued, now).value.1, op, recovery, eventId, at, issued, now);
    case StateCeremony(q, bundle, eventId, proofId, at, now) =>
      StateChangeLasts(db, r, op, q, bundle, eventId, proofId, at, now);
    case AdjudicateCeremony(proofId, chosen, reason, bundle, eventId, at) =>
      AdjudicationLasts(db, r, op, proofId, chosen, reason, bundle, eventId, at);
      AdjudicationKeeps(db, r, op, proofId, chosen, reason, bundle, eventId, at);
  }

  lemma CommitIsLater(db: Db, r: Db, op: OperatorId, c: Ceremony)
    requires Coherent(db, op) && Attempt(db, op, c) == Ok(r) && DecisionsInLedger(db.ledger, db.proofs)
    ensures Coherent(r, op) && Later(db, r) && DecisionsInLedger(r.ledger, r.proofs)
  {
    hide Attempt, RowsLast, ProofsLast, AnchoredAtHead, RowsAgree, AtMostOneActive, RecoveryDecision, RotatesInstallationAt;
    CeremonyKeeps(db, r, op, c);
    CommitLasts(db, r, op, c);
    assert db.ledger <= r.ledger;
    forall p | p in r.proofs && r.proofs[p].adjudication.Some?
      ensures RowHasSha(r.ledger, r.proofs[p].adjudication.value)
    {
      if p in db.proofs && r.proofs[p] == db.proofs[p] {
        RowHasShaExtends(db.ledger, r.ledger, r.proofs[p].adjudication.value);
      } else {
        assert r.ledger[|db.ledger|].sha == r.proofs[p].adjudication.value;
      }
    }
    if db.anchor.value.Blocked() {
      assert Open(r.proofs) == {};
    } else {
      assert Open(db.proofs) == {};
    }
  }

  // ---------- runs of split ceremonies ----------

  /** A ceremony between its halves, with the state its read has seen. */
  datatype Reading = Reading(ceremony: Ceremony, seen: Db)

  datatype System = System(db: Db, open: map<nat, Reading>)

  /** A process begins a ceremony by reading, or writes what it has read; a process
      that gives up never writes. */
  datatype SplitStep = Begin(i: nat, ceremony: Ceremony) | Commit(i: nat)

  ghost function SplitNext(s: System, op: OperatorId, step: SplitStep): System {
    match step
    case Begin(i, c) => if i !in s.open && Opens(s.db, op, c) then s.(open := s.open[i := Reading(c, s.db)]) else s
    case Commit(i) =>
      if i !in s.open || !Opens(s.open[i].seen, op, s.open[i].ceremony) then s
      else
        var r := Writes(s.open[i].seen, s.db, op, s.open[i].ceremony);
        System(if r.Ok? then r.value else s.db, s.open - {i})
  }

  ghost function SplitRun(db: Db, op: OperatorId, steps: seq<SplitStep>): System {
    if steps == [] then System(db, map[]) else SplitNext(SplitRun(db, op, steps[..|steps| - 1]), op, steps[|steps| - 1])
  }

  /** An adjudication writes although its proof is no longer open. */
  ghost predicate Overrides(s: System, op: OperatorId, step: SplitStep) {
    && step.Commit? && step.i in s.open && s.open[step.i].ceremony.AdjudicateCeremony?
    && s.open[step.i].ceremony.proofId !in Open(s.db.proofs)
    && Opens(s.open[step.i].seen, op, s.open[step.i].ceremony)
    && Writes(s.open[step.i].seen, s.db, op, s.open[step.i].ceremony).Ok?
  }

  ghost predicate ReadingsOk(s: System, op: OperatorId) {
    forall i | i in s.open ::
      Coherent(s.open[i].seen, op) && Later(s.open[i].seen, s.db) && Opens(s.open[i].seen, op, s.open[i].ceremony)
  }

  ghost predicate SplitOk(s: System, op: OperatorId) {
    Coherent(s.db, op) && DecisionsInLedger(s.db.ledger, s.db.proofs) && ReadingsOk(s, op)
  }

  lemma LaterItself(db: Db)
    ensures Later(db, db)
  {
  }

  /** An adjudication whose proof is still open writes on the state it has read. */
  lemma OpenDecisionIsAtomic(seen: Db, db: Db, op: OperatorId, c: Ceremony)
    requires Later(seen, db) && c.AdjudicateCeremony? && Opens(seen, op, c) && c.proofId in Open(db.proofs)
    ensures db == seen
  {
    hide Accepted, KeysAfter, BundleOk;
    assert c.proofId in Open(seen.proofs);
  }

  /** A write that overrides nothing is refused, or is the ceremony at its moment. */
  lemma CommitIsCeremony(s: System, op: OperatorId, i: nat)
    requires SplitOk(s, op) && i in s.open && !Overrides(s, op, Commit(i))
    ensures var c := s.open[i].ceremony;
      && Opens(s.open[i].seen, op, c)
      && (Writes(s.open[i].seen, s.db, op, c).Ok? ==> Attempt(s.db, op, c) == Writes(s.open[i].seen, s.db, op, c))
  {
    hide Coherent, Later, Opens, Writes, Attempt, DecisionsInLedger;
    var seen, c := s.open[i].seen, s.open[i].ceremony;
    if Writes(seen, s.db, op, c).Ok? {
      if c.AdjudicateCeremony? {
        OpenDecisionIsAtomic(seen, s.db, op, c);
        HalvesMakeTheCeremony(s.db, op, c);
      } else {
        WriteIsAtomic(seen, s.db, op, c);
      }
    }
  }

  /** One step that overrides nothing: the machine is as after one ceremony or none. */
  lemma SplitStepKeeps(s: System, op: OperatorId, step: SplitStep)
    requires SplitOk(s, op) && !Overrides(s, op, step)
    ensures SplitOk(SplitNext(s, op, step), op) && Later(s.db, SplitNext(s, op, step).db)
    ensures var t := SplitNext(s, op, step);
      t.db == s.db || (step.Commit? && step.i in s.open && Attempt(s.db, op, s.open[step.i].ceremony) == Ok(t.db))
  {
    hide Coherent, Later, Opens, Writes, Attempt, DecisionsInLedger, Overrides;
    var t := SplitNext(s, op, step);
    LaterItself(s.db);
    match step
    case Begin(_, _) =>
    case Commit(i) =>
      if i in s.open {
        CommitIsCeremony(s, op, i);
        var r := Writes(s.open[i].seen, s.db, op, s.open[i].ceremony);
        if r.Ok? {
          CommitIsLater(s.db, r.value, op, s.open[i].ceremony);
          forall j | j in t.open
            ensures Later(t.open[j].seen, t.db)
          {
            LaterExtends(t.open[j].seen, s.db, t.db);
          }
        }
      }
  }

  ghost predicate NeverOverrides(db: Db, op: OperatorId, steps: seq<SplitStep>) {
    forall k | 0 <= k < |steps| :: !Overrides(SplitRun(db, op, steps[..k]), op, steps[k])
  }

  /** Any interleaving of split ceremonies in which no adjudication writes after its
      proof was decided is a run of whole ceremonies, in the order of their writes. */
  lemma {:induction false} SplitRunsAreAtomic(db: Db, op: OperatorId, steps: seq<SplitStep>) returns (ceremonies: seq<Ceremony>)
    requires Coherent(db, op) && DecisionsInLedger(db.ledger, db.proofs) && NeverOverrides(db, op, steps)
    ensures SplitRun(db, op, steps).db == Run(db, op, ceremonies) && SplitOk(SplitRun(db, op, steps), op)
  {
    hide Coherent, SplitNext, Overrides, DecisionsInLedger, Attempt, Later, ReadingsOk;
    ceremonies := [];
    if steps != [] {
      var n := |steps| - 1;
      assert forall k | 0 <= k < n :: steps[..n][..k] == steps[..k];
      ceremonies := SplitRunsAreAtomic(db, op, steps[..n]);
      var s := SplitRun(db, op, steps[..n]);
      SplitStepKeeps(s, op, steps[n]);
      if SplitNext(s, op, steps[n]).db != s.db {
        var c := s.open[steps[n].i].ceremony;
        assert (ceremonies + [c])[..|ceremonies|] == ceremonies;
        ceremonies := ceremonies + [c];
      }
    } else {
      NoReadings(db, op);
    }
  }

  lemma NoReadings(db: Db, op: OperatorId)
    requires Coherent(db, op) && DecisionsInLedger(db.ledger, db.proofs)
    ensures SplitOk(SplitRun(db, op, []), op)
  {
    hide Coherent;
  }

  // ---------- exactly when the hold is kept ----------

  lemma DecisionWriteFacts(db: Db, r: Db, op: OperatorId, d: Decision, eventId: string, at: int)
    requires DecisionWrite(db, op, d, eventId, at) == Ok(r) && Accepted(db.ledger, op) && |db.ledger| > 0
    ensures |r.ledger| == |db.ledger| + 1 && r.ledger[..|db.ledger|] == db.ledger && Accepted(r.ledger, op)
    ensures HeadSha(r.ledger) == r.ledger[|db.ledger|].sha
    ensures d.proofId in db.proofs ==> r.proofs == db.proofs[d.proofId := db.proofs[d.proofId].(adjudication := Some(HeadSha(r.ledger)))]
    ensures db.anchor.Some? ==> r.anchor.Some? && !r.anchor.value.Blocked()
  {
    hide Accepted, KeysAfter, KeyStateSha;
  }

  /** The digest of a new row is not the digest of an earlier one. */
  lemma NewShaIsNew(rows: seq<Row>, op: OperatorId, k: nat)
    requires Accepted(rows, op) && k + 1 < |rows|
    ensures rows[k].sha != HeadSha(rows)
  {
    hide KeysAfter, Accepted;
    RowSequence(rows, op, k);
    RowSequence(rows, op, |rows| - 1);
  }

  lemma RowSequence(rows: seq<Row>, op: OperatorId, k: nat)
    requires Accepted(rows, op) && k < |rows|
    ensures rows[k].sha == EventDigest(rows[k].event) && rows[k].event.sequence == k + 1
  {
    hide KeysAfter, Accepted;
    if k == 0 {
      AcceptedGenesis(rows, op);
    } else {
      AcceptedRow(rows, k + 1, op);
    }
  }

  /** An override commits while writes are open or for another proof, and replaces the recorded decision. */
  lemma OverrideReplacesDecision(s: System, op: OperatorId, step: SplitStep)
    requires SplitOk(s, op) && Overrides(s, op, step)
    ensures !ProofsLast(s.db.proofs, SplitNext(s, op, step).db.proofs)
    ensures SplitNext(s, op, step).db.anchor.Some? && !SplitNext(s, op, step).db.anchor.value.Blocked()
    ensures Open(SplitNext(s, op, step).db.proofs) == Open(s.db.proofs)
  {
    hide Coherent, DecisionWrite, DecisionsInLedger, Later, Opens, Writes;
    var seen, c := s.open[step.i].seen, s.open[step.i].ceremony;
    CoherentLedger(s.db, op);
    CoherentHold(s.db, op);
    LaterProofs(seen, s.db);
    var d := WhatIsDecided(seen, s.db, op, c);
    DecisionReplaced(s.db, Writes(seen, s.db, op, c).value, op, d, c.eventId, c.at);
  }

  lemma WhatIsDecided(seen: Db, db: Db, op: OperatorId, c: Ceremony) returns (d: Decision)
    requires c.AdjudicateCeremony? && Opens(seen, op, c)
    ensures d.proofId == c.proofId && c.proofId in Open(seen.proofs) && Writes(seen, db, op, c) == DecisionWrite(db, op, d, c.eventId, c.at)
  {
    hide DecisionWrite, Accepted, KeysAfter, BundleOk;
    d := ReadConflict(seen, op, c.proofId, c.chosen, c.reason, c.decidedWith).value;
  }

  lemma DecisionReplaced(db: Db, r: Db, op: OperatorId, d: Decision, eventId: string, at: int)
    requires DecisionWrite(db, op, d, eventId, at) == Ok(r) && Accepted(db.ledger, op) && |db.ledger| > 0 && db.anchor.Some?
    requires DecisionsInLedger(db.ledger, db.proofs) && d.proofId in db.proofs && d.proofId !in Open(db.proofs)
    ensures !ProofsLast(db.proofs, r.proofs) && Open(r.proofs) == Open(db.proofs)
    ensures r.anchor.Some? && !r.anchor.value.Blocked()
  {
    hide Accepted, KeysAfter, DecisionWrite;
    DecisionWriteFacts(db, r, op, d, eventId, at);
    var decided := db.proofs[d.proofId].adjudication.value;
    assert RowHasSha(db.ledger, decided);
    var i :| 0 <= i < |db.ledger| && db.ledger[i].sha == decided;
    assert r.ledger[..|db.ledger|][i] == r.ledger[i];
    NewShaIsNew(r.ledger, op, i);
  }

  /** At every moment the machine satisfies the ceremony invariant, and no step replaces a recorded decision. */
  ghost predicate HoldKept(db: Db, op: OperatorId, steps: seq<SplitStep>) {
    && (forall k | 0 <= k <= |steps| :: Coherent(SplitRun(db, op, steps[..k]).db, op))
    && (forall k | 0 <= k < |steps| :: ProofsLast(SplitRun(db, op, steps[..k]).db.proofs, SplitRun(db, op, steps[..k + 1]).db.proofs))
  }

  /** For every interleaving of split ceremonies: the invariant holds at every moment
      and recorded decisions last, if and only if every adjudication that writes finds
      its proof still open. */
  lemma HoldKeptExactly(db: Db, op: OperatorId, steps: seq<SplitStep>)
    requires Coherent(db, op) && DecisionsInLedger(db.ledger, db.proofs)
    ensures HoldKept(db, op, steps) <==> NeverOverrides(db, op, steps)
  {
    hide Coherent, SplitNext, Overrides, DecisionsInLedger, ProofsLast, ReadingsOk, SplitRun;
    if NeverOverrides(db, op, steps) {
      forall k | 0 <= k <= |steps|
        ensures Coherent(SplitRun(db, op, steps[..k]).db, op)
        ensures k < |steps| ==> ProofsLast(SplitRun(db, op, steps[..k]).db.proofs, SplitRun(db, op, steps[..k + 1]).db.proofs)
      {
        NeverOverridesPrefix(db, op, steps, k);
        var _ := SplitRunsAreAtomic(db, op, steps[..k]);
        if k < |steps| {
          SplitStepKeeps(SplitRun(db, op, steps[..k]), op, steps[k]);
          SplitUnfolds(db, op, steps, k);
          LaterProofs(SplitRun(db, op, steps[..k]).db, SplitRun(db, op, steps[..k + 1]).db);
        }
      }
    } else {
      var k := FirstOverride(db, op, steps);
      var _ := SplitRunsAreAtomic(db, op, steps[..k]);
      OverrideReplacesDecision(SplitRun(db, op, steps[..k]), op, steps[k]);
      SplitUnfolds(db, op, steps, k);
    }
  }

  /** From enrollment on. */
  lemma EnrolledHoldKeptExactly(db: Db, r: Db, op: OperatorId, store: StoreId, install: InstallId, key: NewKey, recovery: Option<KeyBinding>,
                                eventId: string, t0: int, t1: int, t2: int, steps: seq<SplitStep>)
    requires db.keyRows == map[] && db.proofs == map[]
    requires Enroll(db, op, store, install, key, recovery, eventId, t0, t1, t2) == Ok(r)
    ensures HoldKept(r, op, steps) <==> NeverOverrides(r, op, steps)
  {
    hide Coherent, HoldKept, NeverOverrides;
    EnrollStarts(db, r, op, store, install, key, recovery, eventId, t0, t1, t2);
    assert r.proofs == map[] by { EnrollLeavesProofs(db, r, op, store, install, key, recovery, eventId, t0, t1, t2); }
    HoldKeptExactly(r, op, steps);
  }

  lemma EnrollLeavesProofs(db: Db, r: Db, op: OperatorId, store: StoreId, install: InstallId, key: NewKey, recovery: Option<KeyBinding>,
                           eventId: string, t0: int, t1: int, t2: int)
    requires Enroll(db, op, store, install, key, recovery, eventId, t0, t1, t2) == Ok(r)
    ensures r.proofs == db.proofs
  {
    hide Closed, Distinct, KeyStateSha, Accepted, KeysAfter;
  }

  lemma LaterProofs(a: Db, b: Db)
    requires Later(a, b)
    ensures ProofsLast(a.proofs, b.proofs)
  {
  }

  lemma SplitUnfolds(db: Db, op: OperatorId, steps: seq<SplitStep>, k: nat)
    requires k < |steps|
    ensures SplitRun(db, op, steps[..k + 1]) == SplitNext(SplitRun(db, op, steps[..k]), op, steps[k])
  {
    hide SplitNext;
    assert steps[..k + 1][..k] == steps[..k];
  }

  lemma NeverOverridesPrefix(db: Db, op: OperatorId, steps: seq<SplitStep>, k: nat)
    requires NeverOverrides(db, op, steps) && k <= |steps|
    ensures NeverOverrides(db, op, steps[..k])
  {
    hide SplitRun, Overrides;
    assert forall j | 0 <= j < k :: steps[..k][..j] == steps[..j];
  }

  lemma FirstOverride(db: Db, op: OperatorId, steps: seq<SplitStep>) returns (k: nat)
    requires !NeverOverrides(db, op, steps)
    ensures k < |steps| && NeverOverrides(db, op, steps[..k]) && Overrides(SplitRun(db, op, steps[..k]), op, steps[k])
  {
    hide SplitRun, Overrides;
    k := 0;
    while !Overrides(SplitRun(db, op, steps[..k]), op, steps[k])
      invariant k < |steps| && forall j | 0 <= j < k :: !Overrides(SplitRun(db, op, steps[..j]), op, steps[j])
      invariant exists j :: k <= j < |steps| && Overrides(SplitRun(db, op, steps[..j]), op, steps[j])
      decreases |steps| - k
    {
      k := k + 1;
    }
    assert forall j | 0 <= j < k :: steps[..k][..j] == steps[..j];
  }

  lemma CoherentHold(db: Db, op: OperatorId)
    requires Coherent(db, op)
    ensures db.anchor.Some? && (db.anchor.value.Blocked() <==> Open(db.proofs) != {})
  {
    hide AnchoredAtHead, RowsAgree, AtMostOneActive;
  }

  /** An override while another proof is open reopens writes with that proof undecided. */
  lemma OverrideReopensWrites(s: System, op: OperatorId, step: SplitStep, other: string)
    requires SplitOk(s, op) && Overrides(s, op, step) && other in Open(s.db.proofs)
    ensures var r := SplitNext(s, op, step).db;
      s.db.anchor.Some? && s.db.anchor.value.Blocked() && r.anchor.Some? && !r.anchor.value.Blocked() && other in Open(r.proofs)
      && !Coherent(r, op)
  {
    OverrideReplacesDecision(s, op, step);
    hide Overrides, SplitNext, Coherent, DecisionsInLedger, ReadingsOk, ProofsLast;
    var r := SplitNext(s, op, step).db;
    CoherentHold(s.db, op);
    if Coherent(r, op) {
      CoherentHold(r, op);
    }
  }

  // ---------- two processes decide one conflict ----------

  /** The row an adjudication's write appends. */
  function DecisionRow(rows: seq<Row>, op: OperatorId, d: Decision, eventId: string, at: int): Row
    requires |rows| > 0
  {
    SignedRow(NextEvent(rows, eventId, ConflictAdjudicated, op, d.install, d.signer, d.signer,
                        AdjudicationDetails(d.proofId, d.chosen, d.candidateSha, d.reason, at), at), d.signerKey)
  }

  lemma DecisionWriteOk(db: Db, op: OperatorId, d: Decision, eventId: string, at: int)
    requires |db.ledger| > 0
    ensures DecisionWrite(db, op, d, eventId, at).Ok? <==>
      !EventIdUsed(db.ledger, eventId) && Accepted(db.ledger + [DecisionRow(db.ledger, op, d, eventId, at)], op)
  {
    hide Accepted, KeysAfter, KeyStateSha;
  }

  lemma AcceptedExtends(b: seq<Row>, op: OperatorId, row: Row)
    requires Accepted(b, op) && |b| > 0 && RowOk(row, |b| + 1, Some(b[|b| - 1].sha), op)
    requires SignerOk(KeysAfter(b), row) && Admissible(KeysAfter(b), row.event, op, StoreOf(b))
    ensures Accepted(b + [row], op)
  {
    hide KeysAfter, RowOk, SignerOk, Admissible;
    assert (b + [row])[..|b + [row]| - 1] == b;
  }

  /** The signer and the decision are judged by the keys alone. */
  lemma DecisionChecksByKeys(keys: KeyMap, a: seq<Row>, b: seq<Row>, op: OperatorId, d: Decision, eventId: string, at: int,
                             storeA: StoreId, storeB: StoreId)
    requires |a| > 0 && |b| > 0
    requires var ra := DecisionRow(a, op, d, eventId, at); SignerOk(keys, ra) && Admissible(keys, ra.event, op, storeA)
    ensures var rb := DecisionRow(b, op, d, eventId, at); SignerOk(keys, rb) && Admissible(keys, rb.event, op, storeB)
  {
  }

  /** A decision row that is acceptable on one ledger is acceptable on another with the same keys. */
  lemma DecisionRowStillAccepted(a: seq<Row>, b: seq<Row>, op: OperatorId, d: Decision, eventId: string, at: int)
    requires Accepted(a, op) && Accepted(b, op) && |a| > 0 && |b| > 0 && KeysAfter(a) == KeysAfter(b)
    requires Accepted(a + [DecisionRow(a, op, d, eventId, at)], op)
    ensures Accepted(b + [DecisionRow(b, op, d, eventId, at)], op)
  {
    LastRowSequence(b, op);
    AppendedDecision(a, op, DecisionRow(a, op, d, eventId, at));
    hide KeysAfter, Accepted, SignerOk, Admissible;
    DecisionChecksByKeys(KeysAfter(b), a, b, op, d, eventId, at, StoreOf(a), StoreOf(b));
    AcceptedExtends(b, op, DecisionRow(b, op, d, eventId, at));
  }

  lemma AppendedDecision(a: seq<Row>, op: OperatorId, row: Row)
    requires Accepted(a, op) && |a| > 0 && Accepted(a + [row], op)
    ensures SignerOk(KeysAfter(a), row) && Admissible(KeysAfter(a), row.event, op, StoreOf(a))
  {
    hide KeysAfter, Admissible;
    assert (a + [row])[..|a + [row]| - 1] == a;
  }

  /** Two processes that both read one open conflict both commit: the second does so
      while writes are open, and its decision replaces the first. */
  lemma BothDecisionsCommit(db: Db, op: OperatorId, first: Ceremony, second: Ceremony)
    requires Coherent(db, op) && DecisionsInLedger(db.ledger, db.proofs)
    requires first.AdjudicateCeremony? && second.AdjudicateCeremony? && first.proofId == second.proofId && first.eventId != second.eventId
    requires Attempt(db, op, first).Ok? && Attempt(db, op, second).Ok?
    ensures var steps := [Begin(0, first), Begin(1, second), Commit(0), Commit(1)];
      var between := SplitRun(db, op, steps[..3]);
      && SplitRun(db, op, steps) == SplitNext(between, op, Commit(1))
      && between.db.anchor.Some? && !between.db.anchor.value.Blocked() && Overrides(between, op, Commit(1))
      && !ProofsLast(between.db.proofs, SplitRun(db, op, steps).db.proofs)
  {
    hide Coherent, Opens, Writes, Attempt, DecisionsInLedger, Overrides, ProofsLast, Later;
    var steps := [Begin(0, first), Begin(1, second), Commit(0), Commit(1)];
    HalvesMakeTheCeremony(db, op, first);
    HalvesMakeTheCeremony(db, op, second);
    var r := Attempt(db, op, first).value;
    var between := System(r, map[1 := Reading(second, db)]);
    var begun := System(db, map[0 := Reading(first, db), 1 := Reading(second, db)]);
    assert SplitRun(db, op, steps[..2]) == begun by { BothBegin(db, op, first, second, steps); }
    SplitUnfolds(db, op, steps, 2);
    assert begun.open - {0} == map[1 := Reading(second, db)];
    assert SplitRun(db, op, steps[..3]) == between;
    SplitUnfolds(db, op, steps, 3);
    assert steps[..4] == steps;
    hide SplitRun;
    SecondStillWrites(db, r, op, first, second);
    CommitIsLater(db, r, op, first);
    assert SplitOk(between, op);
    OverrideReplacesDecision(between, op, Commit(1));
  }

  lemma BothBegin(db: Db, op: OperatorId, first: Ceremony, second: Ceremony, steps: seq<SplitStep>)
    requires |steps| == 4 && steps[0] == Begin(0, first) && steps[1] == Begin(1, second)
    requires Opens(db, op, first) && Opens(db, op, second)
    ensures SplitRun(db, op, steps[..2]) == System(db, map[0 := Reading(first, db), 1 := Reading(second, db)])
  {
    hide Opens, Writes;
    SplitUnfolds(db, op, steps, 0);
    SplitUnfolds(db, op, steps, 1);
    assert steps[..0] == [];
    assert SplitRun(db, op, steps[..1]) == System(db, map[0 := Reading(first, db)]);
  }

  lemma SecondStillWrites(db: Db, r: Db, op: OperatorId, first: Ceremony, second: Ceremony)
    requires Coherent(db, op) && Attempt(db, op, first) == Ok(r) && Attempt(db, op, second).Ok?
    requires first.AdjudicateCeremony? && second.AdjudicateCeremony? && first.proofId == second.proofId && first.eventId != second.eventId
    ensures r.anchor.Some? && !r.anchor.value.Blocked()
    ensures Overrides(System(r, map[1 := Reading(second, db)]), op, Commit(1))
  {
    hide Coherent, Accepted, KeysAfter, BundleOk, DecisionWrite, AppendEvent, KeyStateSha;
    CoherentLedger(db, op);
    AdjudicationKeeps(db, r, op, first.proofId, first.chosen, first.reason, first.decidedWith, first.eventId, first.at);
    CoherentLedger(r, op);
    CoherentHold(r, op);
    HalvesMakeTheCeremony(db, op, second);
    var d := ReadConflict(db, op, second.proofId, second.chosen, second.reason, second.decidedWith).value;
    DecisionWriteOk(db, op, d, second.eventId, second.at);
    DecisionWriteOk(r, op, d, second.eventId, second.at);
    DecisionRowStillAccepted(db.ledger, r.ledger, op, d, second.eventId, second.at);
    FirstUsesItsId(db, r, op, first);
    forall i | 0 <= i < |r.ledger|
      ensures r.ledger[i].columns.eventId != second.eventId
    {
      if i < |db.ledger| {
        assert r.ledger[..|db.ledger|][i] == r.ledger[i];
        assert db.ledger[i].columns.eventId != second.eventId;
      }
    }
    assert first.proofId !in Open(r.proofs);
  }

  lemma FirstUsesItsId(db: Db, r: Db, op: OperatorId, first: Ceremony)
    requires first.AdjudicateCeremony? && Attempt(db, op, first) == Ok(r)
    ensures |r.ledger| == |db.ledger| + 1 && r.ledger[|db.ledger|].columns.eventId == first.eventId
  {
    hide Accepted, KeysAfter, BundleOk, KeyStateSha, Adjudicate;
    var row := AdjudicationSteps(db, op, first.proofId, first.chosen, first.reason, first.decidedWith, first.eventId, first.at);
  }
}
