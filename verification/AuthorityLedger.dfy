/** The append-only authority ledger: what a replay accepts, the key map it
    rebuilds, and the checkpoint verified against that replay.

    `Accepted` and `KeysAfter` say what a ledger means by recursion on its last
    row.  `LedgerTable.VerifyAuthorityChain` is the program's single pass with
    its dictionaries, proved to compute the same thing. */
module AuthorityLedger {
  import opened Outcomes
  import opened AuthorityData

  const MAX_CHECKPOINT_AGE: int := DAY_SECONDS * SECOND

  // ---------- key certificates ----------

  predicate CertificateOk(b: KeyBinding, blob: Option<Blob>) {
    && |b.publicKey| == 32
    && b.fingerprint == FingerprintDigest(b.publicKey)
    && (blob.Some? ==> blob.value.size > 0)
  }

  function Certify(b: KeyBinding, blob: Option<Blob>, kind: KeyKind, sequence: int, sha: Digest, at: int): Key {
    Key(b.keyId, b.publicKey, b.fingerprint, b.installId, kind, Active, kind == Installation, blob,
        sequence, sha, at, None, None)
  }

  predicate AuthorizationOk(a: Authorization, e: Event, b: KeyBinding, op: OperatorId, store: StoreId) {
    && a.operator == op
    && a.store == store
    && a.newInstall == b.installId
    && a.newKey == b.keyId
    && a.newPublicKey == b.publicKey
    && Some(a.precedingHead) == e.previous
  }

  predicate IsActive(keys: KeyMap, id: KeyId) {
    id in keys && keys[id].status == Active
  }

  /** Some active installation key names this installation. */
  predicate InstallationTaken(keys: KeyMap, install: InstallId) {
    exists id | id in keys :: keys[id].kind == Installation && keys[id].installId == install && keys[id].status == Active
  }

  /** Active keys of either kind that name this installation. */
  function ActiveOn(keys: KeyMap, install: InstallId): set<KeyId> {
    set id | id in keys && keys[id].installId == install && keys[id].status == Active
  }

  predicate Blank(s: string) {
    forall c | c in s :: Whitespace(c as int)
  }

  // ---------- one lifecycle event ----------

  /** The checks made on an event after its row, signer and signature are in order. */
  predicate Admissible(keys: KeyMap, e: Event, op: OperatorId, store: StoreId) {
    e.Lifecycle? &&
    match e.kind
    case RecoveryCreated =>
      && e.details.KeyDetails?
      && var d := e.details;
      && d.blob == None && d.authorization == None && d.oldKey == None && d.oldInstall == None
      && CertificateOk(d.binding, d.blob)
      && e.keyId == d.binding.keyId && e.installId == d.binding.installId
      && d.binding.keyId !in keys
    case InstallationPaired =>
      && e.details.KeyDetails?
      && var d := e.details;
      && d.blob.Some? && d.authorization.Some? && d.oldKey == None && d.oldInstall == None
      && CertificateOk(d.binding, d.blob)
      && e.keyId == d.binding.keyId && e.installId == d.binding.installId
      && d.binding.keyId !in keys
      && !InstallationTaken(keys, d.binding.installId)
      && AuthorizationOk(d.authorization.value, e, d.binding, op, store)
    case KeyRotated =>
      && e.details.KeyDetails?
      && var d := e.details;
      && d.blob.Some? && d.authorization == None && d.oldKey.Some? && d.oldInstall == None
      && e.signedBy == d.oldKey.value
      && IsActive(keys, d.oldKey.value)
      && CertificateOk(d.binding, d.blob)
      && d.binding.keyId !in keys
      && d.binding.installId == keys[d.oldKey.value].installId
    case InstallationRebound =>
      && e.details.KeyDetails?
      && var d := e.details;
      && d.blob.Some? && d.authorization.Some? && d.oldKey == None && d.oldInstall.Some?
      && |ActiveOn(keys, d.oldInstall.value)| == 1
      && CertificateOk(d.binding, d.blob)
      && d.binding.keyId !in keys
      && !InstallationTaken(Retire(keys, ActiveOn(keys, d.oldInstall.value), e.createdAt), d.binding.installId)
      && AuthorizationOk(d.authorization.value, e, d.binding, op, store)
    case ConflictAdjudicated =>
      && e.details.AdjudicationDetails?
      && !Blank(e.details.reason)
      && e.signedBy in keys && keys[e.signedBy].kind == Recovery
    case KeyRevoked => StateChangeOk(keys, e)
    case KeyCompromised => StateChangeOk(keys, e)
    case RecoveryRevoked => StateChangeOk(keys, e)
    case Enrollment => false
    case OtherKind(_) => false
  }

  predicate StateChangeOk(keys: KeyMap, e: Event)
    requires e.Lifecycle?
  {
    && e.details.StateDetails?
    && var d := e.details;
    && !Blank(d.reason)
    && e.keyId == d.target
    && IsActive(keys, d.target)
    && (e.kind == KeyCompromised ==> e.signedBy != d.target)
    && (e.kind == RecoveryRevoked ==> keys[d.target].kind == Recovery)
    && d.affected == [keys[d.target].installId]
    && d.requiredRevocations == [d.target]
    && (d.compromisedAt.Some? ==> d.compromisedAt.value <= d.effectiveAt)
    && (d.replacement.Some? ==> d.replacement.value in keys)
  }

  /** Keys retired by their successors. */
  function Retire(keys: KeyMap, ids: set<KeyId>, at: int): KeyMap {
    map id | id in keys :: if id in ids then keys[id].(status := Retired, effectiveAt := at) else keys[id]
  }

  function StateAfter(kind: EventKind): KeyStatus {
    if kind == KeyCompromised then Compromised else Revoked
  }

  function CompromiseBoundary(e: Event): Option<int>
    requires e.Lifecycle? && e.details.StateDetails?
  {
    if e.kind == KeyCompromised && e.details.compromisedAt == None
    then Some(e.details.effectiveAt)
    else e.details.compromisedAt
  }

  /** The key map after an admissible event at position `sequence`. */
  function Apply(keys: KeyMap, e: Event, sequence: int, sha: Digest): KeyMap {
    if e.Lifecycle? && e.details.KeyDetails? then
      var d := e.details;
      var kind := if e.kind == RecoveryCreated then Recovery else Installation;
      var retired :=
        if e.kind == KeyRotated && d.oldKey.Some? then {d.oldKey.value}
        else if e.kind == InstallationRebound && d.oldInstall.Some? then ActiveOn(keys, d.oldInstall.value)
        else {};
      Retire(keys, retired, e.createdAt)[d.binding.keyId := Certify(d.binding, d.blob, kind, sequence, sha, e.createdAt)]
    else if e.Lifecycle? && e.details.StateDetails? && e.details.target in keys then
      var d := e.details;
      keys[d.target := keys[d.target].(
        status := StateAfter(e.kind), effectiveAt := d.effectiveAt,
        compromisedAt := CompromiseBoundary(e), replacement := d.replacement)]
    else
      keys
  }

  // ---------- whole ledgers ----------

  predicate RowOk(row: Row, sequence: int, previous: Option<Digest>, op: OperatorId) {
    && row.sequence == sequence
    && row.sha == EventDigest(row.event)
    && row.event.sequence == sequence
    && row.columns == ColumnsOf(row.event)
    && row.event.operator == op
    && row.event.previous == previous
  }

  predicate SignerOk(keys: KeyMap, row: Row) {
    && IsActive(keys, row.event.SignerId())
    && SignatureOk(keys[row.event.SignerId()].publicKey, LedgerMessage(row.event), row.signature)
  }

  predicate GenesisOk(e: Event) {
    && e.Genesis?
    && (e.recovery.Some? ==> CertificateOk(e.recovery.value, None) && e.recovery.value.keyId != e.keyId)
  }

  function GenesisKeys(e: Event, sha: Digest): KeyMap {
    if !e.Genesis? then map[]
    else
      var machine := Key(e.keyId, e.publicKey, e.fingerprint, e.installId, Installation, Active, true, None,
                         1, sha, e.createdAt, None, None);
      if e.recovery.Some?
      then map[e.keyId := machine,
               e.recovery.value.keyId := Certify(e.recovery.value, None, Recovery, 1, sha, e.createdAt)]
      else map[e.keyId := machine]
  }

  /** The key map a replay has rebuilt after the last row. */
  function KeysAfter(rows: seq<Row>): KeyMap {
    if rows == [] then map[]
    else if |rows| == 1 then GenesisKeys(rows[0].event, rows[0].sha)
    else
      var last := rows[|rows| - 1];
      Apply(KeysAfter(rows[..|rows| - 1]), last.event, |rows|, last.sha)
  }

  /** The replay of the whole ledger raises no error. */
  predicate Accepted(rows: seq<Row>, op: OperatorId) {
    && |rows| > 0
    && if |rows| == 1 then
         && GenesisOk(rows[0].event)
         && RowOk(rows[0], 1, None, op)
         && SignerOk(GenesisKeys(rows[0].event, rows[0].sha), rows[0])
       else
         var n := |rows| - 1;
         && Accepted(rows[..n], op)
         && RowOk(rows[n], n + 1, Some(rows[n - 1].sha), op)
         && SignerOk(KeysAfter(rows[..n]), rows[n])
         && Admissible(KeysAfter(rows[..n]), rows[n].event, op, StoreOf(rows))
  }

  function StoreOf(rows: seq<Row>): StoreId
    requires |rows| > 0
  {
    if rows[0].event.Genesis? then rows[0].event.store else ""
  }

  function KeyStateView(keys: KeyMap): KeyMap {
    map id | id in keys :: keys[id].(blob := None)
  }

  function KeyStateSha(keys: KeyMap): Digest {
    KeyStateDigest(KeyStateView(keys))
  }

  function HeadSha(rows: seq<Row>): Digest
    requires |rows| > 0
  {
    rows[|rows| - 1].sha
  }

  // ---------- pinned heads and checkpoints ----------

  datatype PinnedHead = PinnedHead(sequence: int, sha: Digest)

  predicate PinOk(rows: seq<Row>, pin: PinnedHead) {
    1 <= pin.sequence <= |rows| && rows[pin.sequence - 1].sha == pin.sha
  }

  function CertificateOf(key: Key): SignerCertificate {
    SignerCertificate(key.keyId, key.installId, key.publicKey, key.fingerprint, key.kind, key.paired,
                      key.certSequence, key.certSha)
  }

  predicate FreshAt(body: CheckpointBody, now: int) {
    body.issuedAt <= now < body.expiresAt
  }

  /** The checkpoint is one this ledger supports, judged at the checkpoint's own
      position except for the signer's public key, which is read at the head. */
  predicate CheckpointOk(rows: seq<Row>, op: OperatorId, c: Checkpoint, now: int, enforceFreshness: bool) {
    var b := c.body;
    && |rows| > 0
    && b.operator == op
    && b.store == StoreOf(rows)
    && b.genesisSha == rows[0].sha
    && 1 <= b.sequence <= |rows|
    && rows[b.sequence - 1].sha == b.eventSha
    && var atIssue := KeysAfter(rows[..b.sequence]);
    && b.keyStateSha == KeyStateSha(atIssue)
    && b.signerKeyId in KeysAfter(rows)
    && IsActive(atIssue, b.signerKeyId)
    && b.certificate == CertificateOf(atIssue[b.signerKeyId])
    && b.issuedAt < b.expiresAt <= b.issuedAt + MAX_CHECKPOINT_AGE
    && (enforceFreshness ==> FreshAt(b, now))
    && SignatureOk(KeysAfter(rows)[b.signerKeyId].publicKey, CheckpointMessage(b), c.signature)
  }

  /** What a successful verification returns to its caller. */
  datatype Chain = Chain(
    operator: OperatorId, store: StoreId, genesisSha: Digest, headSequence: int, headSha: Digest,
    keyStateSha: Digest, keyStateShaAtCheckpoint: Option<Digest>, keys: KeyMap)

  predicate Verifies(rows: seq<Row>, op: OperatorId, store: Option<StoreId>, checkpoint: Option<Checkpoint>,
                     pin: Option<PinnedHead>, now: int, enforceFreshness: bool)
  {
    && Accepted(rows, op)
    && (store.Some? ==> StoreOf(rows) == store.value)
    && (pin.Some? ==> PinOk(rows, pin.value))
    && (checkpoint.Some? ==> CheckpointOk(rows, op, checkpoint.value, now, enforceFreshness))
  }

  function ChainOf(rows: seq<Row>, op: OperatorId, checkpoint: Option<Checkpoint>): Chain
    requires |rows| > 0
    requires checkpoint.Some? ==> 0 <= checkpoint.value.body.sequence <= |rows|
  {
    Chain(op, StoreOf(rows), rows[0].sha, |rows|, HeadSha(rows), KeyStateSha(KeysAfter(rows)),
          if checkpoint.Some? then Some(KeyStateSha(KeysAfter(rows[..checkpoint.value.body.sequence]))) else None,
          KeysAfter(rows))
  }

  // ---------- issuing ----------

  function NextEvent(rows: seq<Row>, eventId: string, kind: EventKind, op: OperatorId, installId: InstallId,
                     keyId: KeyId, signedBy: KeyId, details: Details, at: int): Event
    requires |rows| > 0
  {
    Lifecycle(rows[|rows| - 1].sequence + 1, eventId, kind, op, installId, keyId, at, Some(HeadSha(rows)), signedBy, details)
  }

  /** The UNIQUE constraint on event ids. */
  predicate EventIdUsed(rows: seq<Row>, eventId: string) {
    exists i | 0 <= i < |rows| :: rows[i].columns.eventId == eventId
  }

  function SignedRow(e: Event, privateKeyOf: Bytes): Row {
    Row(e.sequence, ColumnsOf(e), e, EventDigest(e), Sign(privateKeyOf, LedgerMessage(e)))
  }

  /** `create_checkpoint`: refuses unless the ledger verifies and the signer is active at its head. */
  function NewCheckpoint(rows: seq<Row>, op: OperatorId, signerKeyId: KeyId, privateKeyOf: Bytes, issued: int,
                         ttlSeconds: int, prior: Option<Digest>): Result<Checkpoint>
  {
    if !(1 <= ttlSeconds <= DAY_SECONDS) then Rejected else
    :- Check(Accepted(rows, op));
    :- Check(IsActive(KeysAfter(rows), signerKeyId));
    var body := CheckpointBody(
      op, StoreOf(rows), |rows|, HeadSha(rows), rows[0].sha, KeyStateSha(KeysAfter(rows)), prior, signerKeyId,
      CertificateOf(KeysAfter(rows)[signerKeyId]), issued, issued + ttlSeconds * SECOND);
    Ok(Checkpoint(body, Sign(privateKeyOf, CheckpointMessage(body))))
  }

  // ---------- the program's single pass ----------

  /** The `authority_ledger` table. */
  class LedgerTable {
    var rows: seq<Row>

    constructor ()
      ensures rows == []
    {
      rows := [];
    }

    /** Append one signed event; raises on an empty ledger or a reused event id. */
    method Append(eventId: string, kind: EventKind, op: OperatorId, installId: InstallId, keyId: KeyId,
                  details: Details, signerKeyId: KeyId, privateKeyOf: Bytes, at: int) returns (r: Result<Row>)
      modifies this
      ensures r.Ok? <==> |old(rows)| > 0 && !EventIdUsed(old(rows), eventId)
      ensures r.Ok? ==>
        && r.value == SignedRow(NextEvent(old(rows), eventId, kind, op, installId, keyId, signerKeyId, details, at), privateKeyOf)
        && rows == old(rows) + [r.value]
      ensures r.Rejected? ==> rows == old(rows)
    {
      if |rows| == 0 || EventIdUsed(rows, eventId) {
        return Rejected;
      }
      var head := rows[|rows| - 1];
      var event := Lifecycle(head.sequence + 1, eventId, kind, op, installId, keyId, at, Some(head.sha), signerKeyId, details);
      var row := Row(event.sequence, ColumnsOf(event), event, EventDigest(event), Sign(privateKeyOf, LedgerMessage(event)));
      rows := rows + [row];
      r := Ok(row);
    }

    /** A new recovery key or a newly paired installation. */
    static method StepCertificate(keys: KeyMap, row: Row, kind: KeyKind, sequence: int, op: OperatorId, store: StoreId)
      returns (r: Result<KeyMap>)
      requires row.event.Lifecycle?
      requires row.event.kind == if kind == Recovery then RecoveryCreated else InstallationPaired
      ensures r.Ok? <==> Admissible(keys, row.event, op, store)
      ensures r.Ok? ==> r.value == Apply(keys, row.event, sequence, row.sha)
    {
      var e := row.event;
      if !e.details.KeyDetails? || e.details.oldKey.Some? || e.details.oldInstall.Some?
         || (e.details.blob.Some? != (kind == Installation))
         || (e.details.authorization.Some? != (kind == Installation)) {
        return Rejected;
      }
      var b := e.details.binding;
      if !CertificateOk(b, e.details.blob) || e.keyId != b.keyId || e.installId != b.installId || b.keyId in keys {
        return Rejected;
      }
      if kind == Installation
         && (InstallationTaken(keys, b.installId) || !AuthorizationOk(e.details.authorization.value, e, b, op, store)) {
        return Rejected;
      }
      assert Retire(keys, {}, e.createdAt) == keys;
      r := Ok(keys[b.keyId := Certify(b, e.details.blob, kind, sequence, row.sha, e.createdAt)]);
    }

    /** The active key signs its own successor on the same installation. */
    static method StepRotation(keys: KeyMap, row: Row, sequence: int, op: OperatorId, store: StoreId)
      returns (r: Result<KeyMap>)
      requires row.event.Lifecycle? && row.event.kind == KeyRotated
      ensures r.Ok? <==> Admissible(keys, row.event, op, store)
      ensures r.Ok? ==> r.value == Apply(keys, row.event, sequence, row.sha)
    {
      var e := row.event;
      if !e.details.KeyDetails? || e.details.blob == None || e.details.authorization.Some?
         || e.details.oldKey == None || e.details.oldInstall.Some? {
        return Rejected;
      }
      var oldId := e.details.oldKey.value;
      var b := e.details.binding;
      if e.signedBy != oldId || oldId !in keys || keys[oldId].status != Active {
        return Rejected;
      }
      if !CertificateOk(b, e.details.blob) || b.keyId in keys || b.installId != keys[oldId].installId {
        return Rejected;
      }
      var updated := keys[oldId := keys[oldId].(status := Retired, effectiveAt := e.createdAt)];
      assert updated == Retire(keys, {oldId}, e.createdAt);
      r := Ok(updated[b.keyId := Certify(b, e.details.blob, Installation, sequence, row.sha, e.createdAt)]);
    }

    /** Revocation or compromise of an active key. */
    static method StepStateChange(keys: KeyMap, row: Row, sequence: int)
      returns (r: Result<KeyMap>)
      requires row.event.Lifecycle?
      ensures r.Ok? <==> StateChangeOk(keys, row.event)
      ensures r.Ok? ==> r.value == Apply(keys, row.event, sequence, row.sha)
    {
      var e := row.event;
      if !e.details.StateDetails? || Blank(e.details.reason) {
        return Rejected;
      }
      var d := e.details;
      if e.keyId != d.target || d.target !in keys || keys[d.target].status != Active {
        return Rejected;
      }
      if (e.kind == KeyCompromised && e.signedBy == d.target)
         || (e.kind == RecoveryRevoked && keys[d.target].kind != Recovery) {
        return Rejected;
      }
      if d.affected != [keys[d.target].installId] || d.requiredRevocations != [d.target] {
        return Rejected;
      }
      var status := if e.kind == KeyCompromised then Compromised else Revoked;
      var boundary := d.compromisedAt;
      if e.kind == KeyCompromised && boundary == None {
        boundary := Some(d.effectiveAt);
      }
      if boundary.Some? && boundary.value > d.effectiveAt {
        return Rejected;
      }
      if d.replacement.Some? && d.replacement.value !in keys {
        return Rejected;
      }
      r := Ok(keys[d.target := keys[d.target].(
        status := status, effectiveAt := d.effectiveAt, compromisedAt := boundary, replacement := d.replacement)]);
    }

    /** Recovery replaces the one active key of an installation. */
    static method StepRebind(keys: KeyMap, row: Row, sequence: int, op: OperatorId, store: StoreId)
      returns (r: Result<KeyMap>)
      requires row.event.Lifecycle? && row.event.kind == InstallationRebound
      ensures r.Ok? <==> Admissible(keys, row.event, op, store)
      ensures r.Ok? ==> r.value == Apply(keys, row.event, sequence, row.sha)
    {
      var e := row.event;
      if !e.details.KeyDetails? || e.details.blob == None || e.details.authorization == None
         || e.details.oldKey.Some? || e.details.oldInstall == None {
        return Rejected;
      }
      var b := e.details.binding;
      var activeOld := ActiveOn(keys, e.details.oldInstall.value);
      if |activeOld| != 1 {
        return Rejected;
      }
      var oldId :| oldId in activeOld;
      assert activeOld == {oldId} by {
        assert |activeOld - {oldId}| == 0;
      }
      var updated := keys[oldId := keys[oldId].(status := Retired, effectiveAt := e.createdAt)];
      assert updated == Retire(keys, activeOld, e.createdAt);
      if !CertificateOk(b, e.details.blob) || b.keyId in updated || InstallationTaken(updated, b.installId) {
        return Rejected;
      }
      if !AuthorizationOk(e.details.authorization.value, e, b, op, store) {
        return Rejected;
      }
      r := Ok(updated[b.keyId := Certify(b, e.details.blob, Installation, sequence, row.sha, e.createdAt)]);
    }

    /** Check one lifecycle event and update the key map. */
    static method Step(keys: KeyMap, row: Row, sequence: int, op: OperatorId, store: StoreId) returns (r: Result<KeyMap>)
      ensures r.Ok? <==> Admissible(keys, row.event, op, store)
      ensures r.Ok? ==> r.value == Apply(keys, row.event, sequence, row.sha)
    {
      var e := row.event;
      if !e.Lifecycle? {
        return Rejected;
      }
      match e.kind {
        case RecoveryCreated =>
          r := StepCertificate(keys, row, Recovery, sequence, op, store);
        case InstallationPaired =>
          r := StepCertificate(keys, row, Installation, sequence, op, store);
        case KeyRotated =>
          r := StepRotation(keys, row, sequence, op, store);
        case KeyRevoked =>
          r := StepStateChange(keys, row, sequence);
        case KeyCompromised =>
          r := StepStateChange(keys, row, sequence);
        case RecoveryRevoked =>
          r := StepStateChange(keys, row, sequence);
        case InstallationRebound =>
          r := StepRebind(keys, row, sequence, op, store);
        case ConflictAdjudicated =>
          if !e.details.AdjudicationDetails? || Blank(e.details.reason)
             || e.signedBy !in keys || keys[e.signedBy].kind != Recovery {
            return Rejected;
          }
          r := Ok(keys);
        case Enrollment =>
          r := Rejected;
        case OtherKind(_) =>
          r := Rejected;
      }
    }

    /** Row, signer and signature of one event, then the event itself. */
    static method ReplayRow(ghost before: seq<Row>, ghost first: Row, keys: KeyMap, row: Row, index: nat,
                            headSha: Option<Digest>, op: OperatorId, store: StoreId) returns (r: Result<KeyMap>)
      requires Replaying(before, first, keys, headSha, op, store) && |before| == index
      requires index == 0 ==> row == first && GenesisOk(first.event) && first.event.store == store
      ensures r.Ok? == Accepted(before + [row], op)
      ensures r.Ok? ==> Replaying(before + [row], first, r.value, Some(row.sha), op, store)
      ensures r.Ok? ==> r.value == KeysAfter(before + [row])
    {
      hide Admissible, Apply;
      ghost var after := before + [row];
      assert after[..index] == before;
      if row.sequence != index + 1 || row.sha != EventDigest(row.event) || row.event.sequence != index + 1
         || row.columns != ColumnsOf(row.event) || row.event.operator != op || row.event.previous != headSha {
        return Rejected;
      }
      var signerId := row.event.SignerId();
      if signerId !in keys || keys[signerId].status != Active
         || !SignatureOk(keys[signerId].publicKey, LedgerMessage(row.event), row.signature) {
        return Rejected;
      }
      if index == 0 {
        return Ok(keys);
      }
      r := Step(keys, row, index + 1, op, store);
    }

    /** The pass over the rows.  The per-sequence dictionaries are sequences: entry k - 1 belongs to sequence k. */
    method ReplayRows(op: OperatorId, store: StoreId)
      returns (ok: bool, keys: KeyMap, hashes: seq<Digest>, snapshots: seq<KeyMap>, keyStateHashes: seq<Digest>)
      requires |rows| > 0 && GenesisOk(rows[0].event) && rows[0].event.store == store
      ensures ok == Accepted(rows, op)
      ensures ok ==> keys == KeysAfter(rows) && Tables(rows, hashes, snapshots, keyStateHashes)
    {
      hide Accepted, KeysAfter;
      keys := GenesisKeys(rows[0].event, rows[0].sha);
      hashes, snapshots, keyStateHashes := [], [], [];
      var headSha: Option<Digest> := None;
      var index := 0;
      while index < |rows|
        invariant 0 <= index <= |rows|
        invariant Replaying(rows[..index], rows[0], keys, headSha, op, store)
        invariant index > 0 ==> Accepted(rows[..index], op) && keys == KeysAfter(rows[..index])
        invariant Tables(rows[..index], hashes, snapshots, keyStateHashes)
      {
        hide Replaying, Tables;
        var row := rows[index];
        ghost var before := rows[..index];
        assert rows[..index + 1] == before + [row];
        var stepped := ReplayRow(before, rows[0], keys, row, index, headSha, op, store);
        if stepped.Rejected? {
          RejectedPrefix(rows, index + 1, op);
          ok := false;
          return;
        }
        keys := stepped.value;
        TablesExtend(before, row, hashes, snapshots, keyStateHashes, keys);
        headSha := Some(row.sha);
        hashes := hashes + [row.sha];
        snapshots := snapshots + [keys];
        keyStateHashes := keyStateHashes + [KeyStateSha(keys)];
        index := index + 1;
      }
      assert rows[..|rows|] == rows;
      ok := true;
    }

    /** The checkpoint, judged with the dictionaries. */
    method CheckCheckpoint(op: OperatorId, store: StoreId, c: Checkpoint, now: int, enforceFreshness: bool, keys: KeyMap,
                           hashes: seq<Digest>, snapshots: seq<KeyMap>, keyStateHashes: seq<Digest>)
      returns (ok: bool)
      requires |rows| > 0 && store == StoreOf(rows)
      requires keys == KeysAfter(rows) && Tables(rows, hashes, snapshots, keyStateHashes)
      ensures ok == CheckpointOk(rows, op, c, now, enforceFreshness)
      ensures ok ==> 1 <= c.body.sequence <= |rows|
    {
      var b := c.body;
      if b.operator != op || b.store != store || b.genesisSha != hashes[0] {
        return false;
      }
      if b.sequence < 1 || b.sequence > |hashes| || hashes[b.sequence - 1] != b.eventSha
         || b.keyStateSha != keyStateHashes[b.sequence - 1] {
        return false;
      }
      var atCheckpoint := snapshots[b.sequence - 1];
      if b.signerKeyId !in keys || b.signerKeyId !in atCheckpoint || atCheckpoint[b.signerKeyId].status != Active {
        return false;
      }
      if b.certificate != CertificateOf(atCheckpoint[b.signerKeyId]) {
        return false;
      }
      if b.expiresAt <= b.issuedAt || b.expiresAt - b.issuedAt > MAX_CHECKPOINT_AGE {
        return false;
      }
      if enforceFreshness && (now < b.issuedAt || now >= b.expiresAt) {
        return false;
      }
      ok := SignatureOk(keys[b.signerKeyId].publicKey, CheckpointMessage(b), c.signature);
    }

    /** Verify the entire chain, then an optional pinned head and checkpoint. */
    method VerifyAuthorityChain(op: OperatorId, store: Option<StoreId>, checkpoint: Option<Checkpoint>,
                                pin: Option<PinnedHead>, now: int, enforceFreshness: bool) returns (r: Result<Chain>)
      ensures r.Ok? == Verifies(rows, op, store, checkpoint, pin, now, enforceFreshness)
      ensures r.Ok? ==> r.value == ChainOf(rows, op, checkpoint)
    {
      hide KeysAfter, CheckpointOk, Accepted;
      AcceptedGenesis(rows, op);
      if |rows| == 0 || !GenesisOk(rows[0].event) {
        return Rejected;
      }
      var genesis := rows[0].event;
      if genesis.operator != op || (store.Some? && genesis.store != store.value) {
        return Rejected;
      }
      var ok, keys, hashes, snapshots, keyStateHashes := ReplayRows(op, genesis.store);
      if !ok {
        return Rejected;
      }
      if pin.Some? {
        var sequence := pin.value.sequence;
        if sequence < 1 || sequence > |hashes| || hashes[sequence - 1] != pin.value.sha {
          return Rejected;
        }
      }
      if checkpoint.Some? {
        ok := CheckCheckpoint(op, genesis.store, checkpoint.value, now, enforceFreshness, keys, hashes, snapshots, keyStateHashes);
        if !ok {
          return Rejected;
        }
      }
      assert rows[..|rows|] == rows;
      r := Ok(Chain(op, genesis.store, hashes[0], |rows|, hashes[|rows| - 1], keyStateHashes[|rows| - 1],
                    if checkpoint.Some? then Some(keyStateHashes[checkpoint.value.body.sequence - 1]) else None, keys));
    }
  }

  /** The state of the pass when it has replayed `before`. */
  ghost predicate Replaying(before: seq<Row>, first: Row, keys: KeyMap, headSha: Option<Digest>, op: OperatorId, store: StoreId) {
    if before == [] then keys == GenesisKeys(first.event, first.sha) && headSha == None
    else Accepted(before, op) && keys == KeysAfter(before) && headSha == Some(HeadSha(before)) && StoreOf(before) == store
  }

  /** The dictionaries a replay of these rows builds. */
  ghost predicate Tables(rows: seq<Row>, hashes: seq<Digest>, snapshots: seq<KeyMap>, keyStateHashes: seq<Digest>) {
    && |hashes| == |snapshots| == |keyStateHashes| == |rows|
    && (forall k | 0 <= k < |rows| :: hashes[k] == rows[k].sha)
    && (forall k | 0 <= k < |rows| :: snapshots[k] == KeysAfter(rows[..k + 1]))
    && (forall k | 0 <= k < |rows| :: keyStateHashes[k] == KeyStateSha(snapshots[k]))
  }

  lemma TablesExtend(rows: seq<Row>, row: Row, hashes: seq<Digest>, snapshots: seq<KeyMap>,
                     keyStateHashes: seq<Digest>, keys: KeyMap)
    requires Tables(rows, hashes, snapshots, keyStateHashes)
    requires keys == KeysAfter(rows + [row])
    ensures Tables(rows + [row], hashes + [row.sha], snapshots + [keys], keyStateHashes + [KeyStateSha(keys)])
  {
    var after, more := rows + [row], snapshots + [keys];
    forall k | 0 <= k < |after|
      ensures more[k] == KeysAfter(after[..k + 1])
    {
      assert after[..k + 1] == if k < |rows| then rows[..k + 1] else after;
    }
  }

  // ---------- prefixes ----------

  lemma {:induction false} AcceptedPrefix(rows: seq<Row>, k: nat, op: OperatorId)
    requires Accepted(rows, op) && 1 <= k <= |rows|
    ensures Accepted(rows[..k], op)
    decreases |rows|
  {
    hide KeysAfter;
    if k == |rows| {
      assert rows[..k] == rows;
    } else {
      AcceptedPrefix(rows[..|rows| - 1], k, op);
      assert rows[..|rows| - 1][..k] == rows[..k];
    }
  }

  /** A ledger with an unacceptable prefix is unacceptable. */
  lemma RejectedPrefix(rows: seq<Row>, k: nat, op: OperatorId)
    requires 1 <= k <= |rows| && !Accepted(rows[..k], op)
    ensures !Accepted(rows, op)
  {
    if Accepted(rows, op) {
      AcceptedPrefix(rows, k, op);
    }
  }

  lemma AcceptedGenesis(rows: seq<Row>, op: OperatorId)
    ensures Accepted(rows, op) ==>
      && |rows| > 0
      && GenesisOk(rows[0].event)
      && RowOk(rows[0], 1, None, op)
      && StoreOf(rows) == rows[0].event.store
  {
    if Accepted(rows, op) {
      AcceptedPrefix(rows, 1, op);
      assert rows[..1][0] == rows[0];
    }
  }

  /** What the row at position k (after the first) was checked against. */
  lemma AcceptedRow(rows: seq<Row>, k: nat, op: OperatorId)
    requires Accepted(rows, op) && 1 < k <= |rows|
    ensures Accepted(rows[..k - 1], op)
    ensures RowOk(rows[k - 1], k, Some(rows[k - 2].sha), op)
    ensures SignerOk(KeysAfter(rows[..k - 1]), rows[k - 1])
    ensures Admissible(KeysAfter(rows[..k - 1]), rows[k - 1].event, op, StoreOf(rows))
    ensures KeysAfter(rows[..k]) == Apply(KeysAfter(rows[..k - 1]), rows[k - 1].event, k, rows[k - 1].sha)
  {
    hide Apply;
    AcceptedPrefix(rows, k, op);
    assert rows[..k][..k - 1] == rows[..k - 1];
  }
}
