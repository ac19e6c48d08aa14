/** The destination-owned trust anchor, local checkpoint pins, and the
    compare-and-swap transfer tickets. */
module AuthorityTrust {
  import opened Outcomes
  import opened AuthorityData
  import opened AuthorityLedger

  const TICKET_HOURS: int := 24 * 3600 * SECOND

  /** The single anchor row.  Writes are blocked exactly when a reason is recorded. */
  datatype Anchor = Anchor(
    operator: OperatorId, store: StoreId, genesisSha: Digest,
    recoveryKey: Option<KeyId>, recoveryPublicKey: Option<Bytes>,
    pinnedSequence: int, pinnedHead: Digest, keyStateSha: Digest,
    checkpointSha: Option<Digest>, checkpoint: Option<Checkpoint>, certificate: Option<SignerCertificate>,
    updatedAt: int, blockReason: Option<string>)
  {
    predicate Blocked() {
      blockReason.Some?
    }

    /** The digest covers every column but the stored checkpoint text and the update time. */
    function Digest(): AnchorDigest {
      AnchorDigest(operator, store, genesisSha, recoveryKey, recoveryPublicKey, pinnedSequence, pinnedHead,
                   keyStateSha, checkpointSha, certificate, blockReason)
    }

    function Pinned(): PinnedHead {
      PinnedHead(pinnedSequence, pinnedHead)
    }
  }

  datatype AnchorDigest = AnchorDigest(
    operator: OperatorId, store: StoreId, genesisSha: Digest,
    recoveryKey: Option<KeyId>, recoveryPublicKey: Option<Bytes>,
    pinnedSequence: int, pinnedHead: Digest, keyStateSha: Digest,
    checkpointSha: Option<Digest>, certificate: Option<SignerCertificate>, blockReason: Option<string>)

  /** A row of `authority_checkpoint_pins`, in insertion order. */
  datatype Pin = Pin(sha: Digest, checkpoint: Checkpoint, acceptedAt: int)

  datatype TicketStatus = Prepared | Finalized | Cancelled

  datatype Ticket = Ticket(
    checkpointSha: Digest, checkpoint: Checkpoint, operation: string, priorAnchor: AnchorDigest,
    expiresAt: int, status: TicketStatus)

  /** What the caller holds between preparing and finalizing. */
  datatype TicketClaim = TicketClaim(id: string, checkpointSha: Digest, operation: string, priorAnchor: AnchorDigest)

  datatype Proof = Proof(conflictClass: string, candidateSha: Digest, adjudication: Option<Digest>)

  /** A row of `authority_keys`: the keys this machine holds. */
  datatype KeyRow = KeyRow(
    installId: InstallId, store: StoreId, publicKey: Bytes, status: KeyStatus, sequence: int, blob: Blob)

  datatype PendingRequest = PendingRequest(request: PairingRequest, finalized: bool)

  /** The authority tables of one machine's store. */
  datatype Db = Db(
    ledger: seq<Row>, keyRows: map<KeyId, KeyRow>, anchor: Option<Anchor>, pins: seq<Pin>,
    tickets: map<string, Ticket>, proofs: map<string, Proof>, requests: map<string, PendingRequest>)

  const EmptyDb := Db([], map[], None, [], map[], map[], map[])

  // ---------- reading the anchor ----------

  function WritableAnchor(db: Db): Result<Anchor> {
    if !(db.anchor.Some? && !db.anchor.value.Blocked()) then Rejected else
    Ok(db.anchor.value)
  }

  // ---------- establishing ----------

  /** Each item names the digest of the one before it, the first names `prior`. */
  predicate Closed(history: seq<Checkpoint>, prior: Option<Digest>) {
    history == [] ||
    (history[0].body.prior == prior && Closed(history[1..], Some(CheckpointDigest(history[0]))))
  }

  predicate RecoveryInChain(keys: KeyMap, key: Option<KeyId>, publicKey: Option<Bytes>) {
    && key.Some? == publicKey.Some?
    && (key.Some? ==> IsActive(keys, key.value) && keys[key.value].kind == Recovery && keys[key.value].publicKey == publicKey.value)
  }

  function PinsOf(history: seq<Checkpoint>, at: int): seq<Pin> {
    seq(|history|, i requires 0 <= i < |history| => Pin(CheckpointDigest(history[i]), history[i], at))
  }

  predicate Distinct(history: seq<Checkpoint>) {
    forall i, j | 0 <= i < j < |history| :: history[i] != history[j]
  }

  /** What is pinned at first trust: the supplied history, or the checkpoint alone, or nothing. */
  function FirstHistory(checkpoint: Option<Checkpoint>, history: seq<Checkpoint>): seq<Checkpoint> {
    if history != [] then history else if checkpoint.Some? then [checkpoint.value] else []
  }

  /** First trust, from enrollment or a recovery ceremony. */
  function Establish(db: Db, chain: Chain, recoveryKey: Option<KeyId>, recoveryPublicKey: Option<Bytes>,
                     checkpoint: Option<Checkpoint>, history: seq<Checkpoint>, now: int): Result<Db>
  {
    if !(db.anchor == None) then Rejected else
    :- Check(RecoveryInChain(chain.keys, recoveryKey, recoveryPublicKey));
    var items := FirstHistory(checkpoint, history);
    :- Check(checkpoint.Some? ==> items[|items| - 1] == checkpoint.value);
    :- Check(Closed(items, None));
    :- Check(Distinct(items) && forall p | p in db.pins :: p.checkpoint !in items);
    var anchor := Anchor(chain.operator, chain.store, chain.genesisSha, recoveryKey, recoveryPublicKey,
                         chain.headSequence, chain.headSha, chain.keyStateSha,
                         if checkpoint.Some? then Some(CheckpointDigest(checkpoint.value)) else None, checkpoint,
                         if checkpoint.Some? then Some(checkpoint.value.body.certificate) else None, now, None);
    Ok(db.(anchor := Some(anchor), pins := db.pins + PinsOf(items, now)))
  }

  // ---------- verifying a foreign source against local trust ----------

  datatype Transfer = Transfer(
    operator: OperatorId, store: StoreId, genesisSha: Digest, headSequence: int, headSha: Digest,
    checkpoint: Checkpoint, priorAnchor: AnchorDigest)

  function IndexOf(history: seq<Checkpoint>, sha: Digest): (r: Option<int>)
    ensures r.Some? ==> 0 <= r.value < |history| && CheckpointDigest(history[r.value]) == sha
    ensures r == None ==> forall c | c in history :: CheckpointDigest(c) != sha
  {
    if history == [] then None
    else if CheckpointDigest(history[0]) == sha then Some(0)
    else
      var rest := IndexOf(history[1..], sha);
      if rest.Some? then Some(rest.value + 1) else None
  }

  /** Every later item continues the previous digest and verifies on the source. */
  predicate Extends(source: seq<Row>, anchor: Anchor, items: seq<Checkpoint>, prior: Option<Digest>,
                    last: Checkpoint, now: int)
  {
    items == [] ||
    (&& items[0].body.prior == prior
     && Verifies(source, anchor.operator, Some(anchor.store), Some(items[0]), Some(anchor.Pinned()), now, items[0] == last)
     && Extends(source, anchor, items[1..], Some(CheckpointDigest(items[0])), last, now))
  }

  /** The supplied items that come after the one this machine has pinned. */
  function Continuation(anchor: Anchor, checkpoint: Checkpoint, supplied: seq<Checkpoint>): Option<seq<Checkpoint>> {
    var history := if supplied == [] then [checkpoint] else supplied;
    if history[|history| - 1] != checkpoint then None
    else if anchor.checkpointSha == None then Some(history[1..])
    else
      var start := IndexOf(history, anchor.checkpointSha.value);
      if start == None then None else Some(history[start.value + 1..])
  }

  predicate TransferOk(source: seq<Row>, anchor: Anchor, checkpoint: Checkpoint, supplied: seq<Checkpoint>, now: int) {
    && !anchor.Blocked()
    && Continuation(anchor, checkpoint, supplied).Some?
    && Extends(source, anchor, Continuation(anchor, checkpoint, supplied).value, anchor.checkpointSha, checkpoint, now)
    && Verifies(source, anchor.operator, Some(anchor.store), Some(checkpoint), Some(anchor.Pinned()), now, true)
    && source[0].sha == anchor.genesisSha
    && ContinuesPin(anchor, checkpoint, |supplied| <= 1)
  }

  /** The candidate does not roll the pin back, equivocate at it, or skip the pinned checkpoint. */
  predicate ContinuesPin(anchor: Anchor, c: Checkpoint, alone: bool) {
    && c.body.sequence >= anchor.pinnedSequence
    && (c.body.sequence == anchor.pinnedSequence ==>
          && c.body.eventSha == anchor.pinnedHead
          && (alone ==> anchor.checkpointSha == None || anchor.checkpointSha == Some(CheckpointDigest(c))))
    && (c.body.sequence > anchor.pinnedSequence && anchor.checkpointSha.Some? && alone ==>
          c.body.prior == anchor.checkpointSha)
  }

  lemma CheckpointStateAgrees(rows: seq<Row>, op: OperatorId, store: Option<StoreId>, c: Checkpoint,
                              pin: Option<PinnedHead>, now: int, enforceFreshness: bool)
    requires Verifies(rows, op, store, Some(c), pin, now, enforceFreshness)
    ensures |rows| > 0 && 1 <= c.body.sequence <= |rows|
    ensures ChainOf(rows, op, Some(c)).keyStateShaAtCheckpoint == Some(c.body.keyStateSha)
  {
  }

  function TransferOf(source: seq<Row>, anchor: Anchor, checkpoint: Checkpoint): Transfer
    requires |source| > 0
  {
    Transfer(anchor.operator, StoreOf(source), source[0].sha, |source|, HeadSha(source), checkpoint, anchor.Digest())
  }

  // ---------- tickets ----------

  function ClaimOf(id: string, t: Ticket): TicketClaim {
    TicketClaim(id, t.checkpointSha, t.operation, t.priorAnchor)
  }

  function Prepare(db: Db, transfer: Transfer, id: string, operation: string, now: int): Result<Db> {
    var anchor :- WritableAnchor(db);
    :- Check(anchor.Digest() == transfer.priorAnchor);
    :- Check(|operation| == 64);
    :- Check(id !in db.tickets);
    Ok(db.(tickets := db.tickets[id := Ticket(CheckpointDigest(transfer.checkpoint), transfer.checkpoint, operation,
                                              transfer.priorAnchor, now + TICKET_HOURS, Prepared)]))
  }

  function Repin(anchor: Anchor, c: Checkpoint, now: int): Anchor {
    anchor.(pinnedSequence := c.body.sequence, pinnedHead := c.body.eventSha, keyStateSha := c.body.keyStateSha,
            checkpointSha := Some(CheckpointDigest(c)), checkpoint := Some(c), certificate := Some(c.body.certificate),
            updatedAt := now)
  }

  predicate PinKnown(pins: seq<Pin>, sha: Digest) {
    exists i | 0 <= i < |pins| :: pins[i].sha == sha
  }

  /** Finalizing twice answers with the anchor and writes nothing. */
  function Finalize(db: Db, claim: TicketClaim, now: int): Result<Db> {
    if !(claim.id in db.tickets) then Rejected else
    var t := db.tickets[claim.id];
    if t.status == Finalized then
      :- Check(ClaimOf(claim.id, t) == claim);
      :- Check(db.anchor.Some? && db.anchor.value.checkpointSha == Some(claim.checkpointSha));
      Ok(db)
    else
      :- Check(t.status == Prepared);
      :- Check(now < t.expiresAt);
      :- Check(ClaimOf(claim.id, t) == claim);
      var anchor :- WritableAnchor(db);
      :- Check(anchor.Digest() == claim.priorAnchor);
      Ok(db.(anchor := Some(Repin(anchor, t.checkpoint, now).(checkpointSha := Some(claim.checkpointSha))),
             pins := if PinKnown(db.pins, claim.checkpointSha) then db.pins
                     else db.pins + [Pin(claim.checkpointSha, t.checkpoint, now)],
             tickets := db.tickets[claim.id := t.(status := Finalized)]))
  }

  // ---------- local moves ----------

  function PinLocal(db: Db, c: Checkpoint, now: int, enforceFreshness: bool): Result<Db> {
    var anchor :- WritableAnchor(db);
    :- Check(Verifies(db.ledger, anchor.operator, Some(anchor.store), Some(c), None, now, enforceFreshness));
    :- Check(c.body.genesisSha == anchor.genesisSha);
    :- Check(c.body.sequence >= anchor.pinnedSequence);
    :- Check(c.body.sequence == anchor.pinnedSequence ==> c.body.eventSha == anchor.pinnedHead);
    :- Check(anchor.checkpointSha.Some? ==> c.body.prior == anchor.checkpointSha);
    :- Check(!PinKnown(db.pins, CheckpointDigest(c)));
    Ok(db.(anchor := Some(Repin(anchor, c, now)), pins := db.pins + [Pin(CheckpointDigest(c), c, now)]))
  }

  predicate LocalRowIs(ledger: seq<Row>, sequence: int, sha: Digest) {
    1 <= sequence <= |ledger| && ledger[sequence - 1].sha == sha
  }

  function Advance(db: Db, chain: Chain, now: int): Result<Db> {
    var anchor :- WritableAnchor(db);
    :- Check(chain.operator == anchor.operator && chain.store == anchor.store && chain.genesisSha == anchor.genesisSha);
    :- Check(LocalRowIs(db.ledger, anchor.pinnedSequence, anchor.pinnedHead));
    :- Check(chain.headSequence >= anchor.pinnedSequence);
    Ok(db.(anchor := Some(anchor.(pinnedSequence := chain.headSequence, pinnedHead := chain.headSha,
                                  keyStateSha := chain.keyStateSha, updatedAt := now))))
  }

  function BlockReason(conflictClass: string, id: string): string {
    conflictClass + ":" + id
  }

  function Retain(db: Db, id: string, conflictClass: string, candidateSha: Digest, now: int): Result<Db> {
    if !(id !in db.proofs) then Rejected else
    :- Check(db.anchor.Some?);
    Ok(db.(proofs := db.proofs[id := Proof(conflictClass, candidateSha, None)],
           anchor := Some(db.anchor.value.(blockReason := Some(BlockReason(conflictClass, id)), updatedAt := now))))
  }

  // ---------- the tables, updated in place ----------

  class AuthorityStore {
    const ledger: LedgerTable
    var keyRows: map<KeyId, KeyRow>
    var anchor: Option<Anchor>
    var pins: seq<Pin>
    var tickets: map<string, Ticket>
    var proofs: map<string, Proof>
    var requests: map<string, PendingRequest>

    constructor ()
      ensures fresh(ledger) && Value() == EmptyDb
    {
      var table := new LedgerTable();
      ledger := table;
      keyRows, anchor, pins, tickets, proofs, requests := map[], None, [], map[], map[], map[];
    }

    function Value(): Db
      reads this, ledger
    {
      Db(ledger.rows, keyRows, anchor, pins, tickets, proofs, requests)
    }

    /** The rollback a connection performs when an exception leaves its block. */
    method Restore(saved: Db)
      modifies this, ledger
      ensures Value() == saved
    {
      ledger.rows := saved.ledger;
      keyRows, anchor, pins := saved.keyRows, saved.anchor, saved.pins;
      tickets, proofs, requests := saved.tickets, saved.proofs, saved.requests;
    }

    method AssertWritesAllowed() returns (r: Result<Anchor>)
      ensures r == WritableAnchor(Value())
    {
      if anchor == None || anchor.value.blockReason.Some? {
        return Rejected;
      }
      r := Ok(anchor.value);
    }

    static method CheckClosed(items: seq<Checkpoint>) returns (ok: bool)
      ensures ok == Closed(items, None)
    {
      var prior: Option<AuthorityData.Digest> := None;
      var i := 0;
      while i < |items|
        invariant 0 <= i <= |items|
        invariant Closed(items[i..], prior) == Closed(items, None)
      {
        if items[i].body.prior != prior {
          return false;
        }
        prior := Some(CheckpointDigest(items[i]));
        assert items[i..][1..] == items[i + 1..];
        i := i + 1;
      }
      ok := true;
    }

    method EstablishAnchor(chain: Chain, recoveryKey: Option<KeyId>, recoveryPublicKey: Option<Bytes>,
                           checkpoint: Option<Checkpoint>, history: seq<Checkpoint>, now: int) returns (ok: bool)
      modifies this
      ensures ok == Establish(old(Value()), chain, recoveryKey, recoveryPublicKey, checkpoint, history, now).Ok?
      ensures Value() == if ok then Establish(old(Value()), chain, recoveryKey, recoveryPublicKey, checkpoint, history, now).value
                         else old(Value())
    {
      hide Distinct, RecoveryInChain, Closed;
      if anchor.Some? || !RecoveryInChain(chain.keys, recoveryKey, recoveryPublicKey) {
        return false;
      }
      var items := FirstHistory(checkpoint, history);
      if checkpoint.Some? && items[|items| - 1] != checkpoint.value {
        return false;
      }
      var closed := CheckClosed(items);
      if !closed {
        return false;
      }
      if !Distinct(items) || exists p | p in pins :: p.checkpoint in items {
        return false;
      }
      anchor := Some(Anchor(chain.operator, chain.store, chain.genesisSha, recoveryKey, recoveryPublicKey,
                            chain.headSequence, chain.headSha, chain.keyStateSha,
                            if checkpoint.Some? then Some(CheckpointDigest(checkpoint.value)) else None, checkpoint,
                            if checkpoint.Some? then Some(checkpoint.value.body.certificate) else None, now, None));
      ghost var before, established := pins, anchor;
      var i := 0;
      while i < |items|
        invariant 0 <= i <= |items|
        invariant pins == before + PinsOf(items, now)[..i]
        invariant Value() == old(Value()).(anchor := established, pins := pins)
      {
        pins := pins + [Pin(CheckpointDigest(items[i]), items[i], now)];
        i := i + 1;
      }
      assert PinsOf(items, now)[..|items|] == PinsOf(items, now);
      ok := true;
    }

    /** The checkpoints after the pinned one, each verified on the source. */
    static method VerifyHistory(source: LedgerTable, local: Anchor, items: seq<Checkpoint>, checkpoint: Checkpoint, now: int)
      returns (ok: bool)
      ensures ok == Extends(source.rows, local, items, local.checkpointSha, checkpoint, now)
    {
      hide Verifies;
      var prior := local.checkpointSha;
      var i := 0;
      while i < |items|
        invariant 0 <= i <= |items|
        invariant Extends(source.rows, local, items[i..], prior, checkpoint, now) ==
                  Extends(source.rows, local, items, local.checkpointSha, checkpoint, now)
      {
        var item := items[i];
        assert items[i..][0] == item && items[i..][1..] == items[i + 1..];
        if item.body.prior != prior {
          return false;
        }
        var step := source.VerifyAuthorityChain(local.operator, Some(local.store), Some(item), Some(local.Pinned()), now,
                                                item == checkpoint);
        if step.Rejected? {
          return false;
        }
        prior := Some(CheckpointDigest(item));
        i := i + 1;
      }
      ok := true;
    }

    static method CheckContinuesPin(local: Anchor, c: Checkpoint, alone: bool) returns (ok: bool)
      ensures ok == ContinuesPin(local, c, alone)
    {
      if c.body.sequence < local.pinnedSequence {
        return false;
      }
      if c.body.sequence == local.pinnedSequence {
        if c.body.eventSha != local.pinnedHead {
          return false;
        }
        if local.checkpointSha != None && local.checkpointSha != Some(CheckpointDigest(c)) && alone {
          return false;
        }
      } else if local.checkpointSha.Some? && alone && c.body.prior != local.checkpointSha {
        return false;
      }
      ok := true;
    }

    /** Verify a source ledger only against destination-owned trust. */
    static method VerifyTransfer(source: LedgerTable, local: Anchor, checkpoint: Checkpoint, supplied: seq<Checkpoint>,
                                 now: int) returns (r: Result<Transfer>)
      ensures r.Ok? == TransferOk(source.rows, local, checkpoint, supplied, now)
      ensures r.Ok? ==> |source.rows| > 0 && r.value == TransferOf(source.rows, local, checkpoint)
    {
      if local.Blocked() {
        return Rejected;
      }
      var items := Continuation(local, checkpoint, supplied);
      if items == None {
        return Rejected;
      }
      var continues := VerifyHistory(source, local, items.value, checkpoint, now);
      if !continues {
        return Rejected;
      }
      var chain := source.VerifyAuthorityChain(local.operator, Some(local.store), Some(checkpoint), Some(local.Pinned()), now, true);
      if chain.Rejected? || chain.value.genesisSha != local.genesisSha {
        return Rejected;
      }
      CheckpointStateAgrees(source.rows, local.operator, Some(local.store), checkpoint, Some(local.Pinned()), now, true);
      if Some(checkpoint.body.keyStateSha) != chain.value.keyStateShaAtCheckpoint {
        return Rejected;
      }
      var continuesPin := CheckContinuesPin(local, checkpoint, |supplied| <= 1);
      if !continuesPin {
        return Rejected;
      }
      r := Ok(Transfer(chain.value.operator, chain.value.store, chain.value.genesisSha, chain.value.headSequence,
                       chain.value.headSha, checkpoint, local.Digest()));
    }

    method PrepareAdvance(transfer: Transfer, id: string, operation: string, now: int) returns (r: Result<TicketClaim>)
      modifies this
      ensures r.Ok? == Prepare(old(Value()), transfer, id, operation, now).Ok?
      ensures r.Ok? ==> Value() == Prepare(old(Value()), transfer, id, operation, now).value
      ensures r.Ok? ==> r.value == ClaimOf(id, tickets[id])
      ensures r.Rejected? ==> Value() == old(Value())
    {
      var current := AssertWritesAllowed();
      if current.Rejected? || current.value.Digest() != transfer.priorAnchor || |operation| != 64 || id in tickets {
        return Rejected;
      }
      var sha := CheckpointDigest(transfer.checkpoint);
      tickets := tickets[id := Ticket(sha, transfer.checkpoint, operation, transfer.priorAnchor, now + TICKET_HOURS, Prepared)];
      r := Ok(TicketClaim(id, sha, operation, transfer.priorAnchor));
    }

    /** The 'cancelled' mark written when an expired ticket is met is undone by
        the rollback that the raised error causes. */
    method FinalizeAdvance(claim: TicketClaim, now: int) returns (r: Result<Anchor>)
      modifies this
      ensures r.Ok? == Finalize(old(Value()), claim, now).Ok?
      ensures r.Ok? ==> Value() == Finalize(old(Value()), claim, now).value && anchor == Some(r.value)
      ensures r.Rejected? ==> Value() == old(Value())
    {
      if claim.id !in tickets {
        return Rejected;
      }
      var row := tickets[claim.id];
      var bound := row.checkpointSha == claim.checkpointSha && row.operation == claim.operation
        && row.priorAnchor == claim.priorAnchor;
      if row.status == Finalized {
        if !bound || anchor == None || anchor.value.checkpointSha != Some(claim.checkpointSha) {
          return Rejected;
        }
        return Ok(anchor.value);
      }
      if row.status != Prepared {
        return Rejected;
      }
      var saved := tickets;
      if now >= row.expiresAt {
        tickets := tickets[claim.id := row.(status := Cancelled)];
        tickets := saved;
        return Rejected;
      }
      if !bound {
        return Rejected;
      }
      var current := AssertWritesAllowed();
      if current.Rejected? || current.value.Digest() != claim.priorAnchor {
        return Rejected;
      }
      var c := row.checkpoint;
      if !PinKnown(pins, claim.checkpointSha) {
        pins := pins + [Pin(claim.checkpointSha, c, now)];
      }
      anchor := Some(current.value.(
        pinnedSequence := c.body.sequence, pinnedHead := c.body.eventSha, keyStateSha := c.body.keyStateSha,
        checkpointSha := Some(claim.checkpointSha), checkpoint := Some(c), certificate := Some(c.body.certificate),
        updatedAt := now));
      tickets := tickets[claim.id := row.(status := Finalized)];
      r := Ok(anchor.value);
    }

    method PinLocalCheckpoint(c: Checkpoint, now: int, enforceFreshness: bool) returns (ok: bool)
      modifies this
      ensures ok == PinLocal(old(Value()), c, now, enforceFreshness).Ok?
      ensures Value() == if ok then PinLocal(old(Value()), c, now, enforceFreshness).value else old(Value())
    {
      hide KeysAfter, Accepted, PinKnown;
      var current := AssertWritesAllowed();
      if current.Rejected? {
        return false;
      }
      var trusted := current.value;
      var chain := ledger.VerifyAuthorityChain(trusted.operator, Some(trusted.store), Some(c), None, now, enforceFreshness);
      if chain.Rejected? || c.body.genesisSha != trusted.genesisSha || c.body.sequence < trusted.pinnedSequence {
        return false;
      }
      if c.body.sequence == trusted.pinnedSequence && c.body.eventSha != trusted.pinnedHead {
        return false;
      }
      if trusted.checkpointSha.Some? && c.body.prior != trusted.checkpointSha {
        return false;
      }
      if PinKnown(pins, CheckpointDigest(c)) {
        return false;
      }
      pins := pins + [Pin(CheckpointDigest(c), c, now)];
      anchor := Some(trusted.(
        pinnedSequence := c.body.sequence, pinnedHead := c.body.eventSha,
        keyStateSha := chain.value.keyStateShaAtCheckpoint.value, checkpointSha := Some(CheckpointDigest(c)),
        checkpoint := Some(c), certificate := Some(c.body.certificate), updatedAt := now));
      ok := true;
    }

    method AdvanceToLocalHead(chain: Chain, now: int) returns (ok: bool)
      modifies this
      ensures ok == Advance(old(Value()), chain, now).Ok?
      ensures Value() == if ok then Advance(old(Value()), chain, now).value else old(Value())
    {
      var current := AssertWritesAllowed();
      if current.Rejected? {
        return false;
      }
      var trusted := current.value;
      if chain.operator != trusted.operator || chain.store != trusted.store || chain.genesisSha != trusted.genesisSha {
        return false;
      }
      if !LocalRowIs(ledger.rows, trusted.pinnedSequence, trusted.pinnedHead) || chain.headSequence < trusted.pinnedSequence {
        return false;
      }
      anchor := Some(trusted.(pinnedSequence := chain.headSequence, pinnedHead := chain.headSha,
                              keyStateSha := chain.keyStateSha, updatedAt := now));
      ok := true;
    }

    method RetainConflict(id: string, conflictClass: string, candidateSha: AuthorityData.Digest, now: int) returns (ok: bool)
      modifies this
      ensures ok == Retain(old(Value()), id, conflictClass, candidateSha, now).Ok?
      ensures Value() == if ok then Retain(old(Value()), id, conflictClass, candidateSha, now).value else old(Value())
    {
      if id in proofs || anchor == None {
        return false;
      }
      proofs := proofs[id := Proof(conflictClass, candidateSha, None)];
      anchor := Some(anchor.value.(blockReason := Some(BlockReason(conflictClass, id)), updatedAt := now));
      ok := true;
    }
  }
}
