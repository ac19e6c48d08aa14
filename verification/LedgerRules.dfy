/** The rules of an accepted ledger and of a verified checkpoint, row by row. */
module LedgerRules {
  import opened Outcomes
  import opened AuthorityData
  import opened AuthorityLedger
  import opened LedgerHistory

  /** The keys that may sign the row at position k (from 0): those active just before
      it; the genesis row may be signed by a key it brings. */
  function SigningKeys(rows: seq<Row>, k: nat): KeyMap
    requires k < |rows|
  {
    if k == 0 then GenesisKeys(rows[0].event, rows[0].sha) else KeysAfter(rows[..k])
  }

  /** Everything a replay asks of the row at position k. */
  predicate RowFollows(rows: seq<Row>, op: OperatorId, k: nat)
    requires k < |rows|
  {
    var row, e, signer := rows[k], rows[k].event, rows[k].event.SignerId();
    && row.sequence == k + 1 && e.sequence == k + 1 && e.operator == op
    && row.sha == EventDigest(e)
    && e.previous == (if k == 0 then None else Some(rows[k - 1].sha))
    && row.columns.eventId == e.eventId && row.columns.kind == e.kind && row.columns.operator == e.operator
    && row.columns.installId == e.installId && row.columns.keyId == e.keyId
    && row.columns.previous == e.previous && row.columns.createdAt == e.createdAt
    && signer in SigningKeys(rows, k) && SigningKeys(rows, k)[signer].status == Active
    && row.signature == Signed(SigningKeys(rows, k)[signer].publicKey, LedgerMessage(e))
    && if k == 0 then
         e.Genesis? && (e.recovery.Some? ==>
           && |e.recovery.value.publicKey| == 32 && e.recovery.value.fingerprint == FingerprintDigest(e.recovery.value.publicKey)
           && e.recovery.value.keyId != e.keyId)
       else
         Admissible(KeysAfter(rows[..k]), e, op, StoreOf(rows))
  }

  lemma LastFollows(rows: seq<Row>, op: OperatorId)
    requires |rows| > 0
    ensures Accepted(rows, op) <==> (|rows| > 1 ==> Accepted(rows[..|rows| - 1], op)) && RowFollows(rows, op, |rows| - 1)
  {
    hide KeysAfter, Admissible;
    assert rows[..|rows|] == rows;
  }

  lemma FollowsInPrefix(rows: seq<Row>, op: OperatorId, n: nat, k: nat)
    requires k < n <= |rows|
    ensures RowFollows(rows[..n], op, k) == RowFollows(rows, op, k)
  {
    hide KeysAfter, Admissible;
    assert rows[..n][..k] == rows[..k];
  }

  /** A replay accepts a ledger if and only if every row follows from those before it:
      numbered, chained, repeated in its columns, signed by a key active by then, and admissible. */
  lemma {:induction false} AcceptedExactly(rows: seq<Row>, op: OperatorId)
    ensures Accepted(rows, op) <==> |rows| > 0 && forall k: nat | k < |rows| :: RowFollows(rows, op, k)
  {
    hide RowFollows, Accepted;
    if |rows| > 0 {
      var n := |rows| - 1;
      LastFollows(rows, op);
      AcceptedExactly(rows[..n], op);
      forall k: nat | k < n
        ensures RowFollows(rows[..n], op, k) == RowFollows(rows, op, k)
      {
        FollowsInPrefix(rows, op, n, k);
      }
    } else {
      EmptyNotAccepted(rows, op);
    }
  }

  lemma EmptyNotAccepted(rows: seq<Row>, op: OperatorId)
    requires rows == []
    ensures !Accepted(rows, op)
  {
  }

  // ---------- authorizations ----------

  /** The event certifies an installation key on an authorization. */
  predicate Authorized(e: Event) {
    e.Lifecycle? && e.kind in {InstallationPaired, InstallationRebound} && e.details.KeyDetails? && e.details.authorization.Some?
  }

  /** An authorization in an accepted ledger names this operator and store, exactly the
      key and installation it certifies, and the row just before it. */
  lemma AuthorizationBindsRow(rows: seq<Row>, op: OperatorId, k: nat)
    requires Accepted(rows, op) && 0 < k < |rows| && rows[k].event.kind in {InstallationPaired, InstallationRebound}
    ensures Authorized(rows[k].event)
    ensures var a := rows[k].event.details.authorization.value; var b := rows[k].event.details.binding;
      && a.operator == op && a.store == StoreOf(rows) && a.precedingHead == rows[k - 1].sha
      && a.newKey == b.keyId && a.newPublicKey == b.publicKey && a.newInstall == b.installId
  {
    hide KeysAfter, Accepted;
    AcceptedRow(rows, k + 1, op);
  }

  /** No authorization certifies two keys, nor one key twice, in an accepted ledger. */
  lemma AuthorizationsAreSingleUse(rows: seq<Row>, op: OperatorId, i: nat, k: nat)
    requires Accepted(rows, op) && i < |rows| && k < |rows| && Authorized(rows[i].event) && Authorized(rows[k].event)
    requires rows[i].event.details.authorization == rows[k].event.details.authorization
    ensures i == k
  {
    hide KeysAfter, Accepted, Admissible;
    AcceptedExactly(rows, op);
    assert RowFollows(rows, op, 0) && RowFollows(rows, op, i) && RowFollows(rows, op, k);
    AuthorizationBindsRow(rows, op, i);
    AuthorizationBindsRow(rows, op, k);
    assert RowFollows(rows, op, i - 1) && RowFollows(rows, op, k - 1);
  }

  // ---------- what a verified checkpoint vouches for ----------

  /** A verified checkpoint is a signature, under the very public key it certifies, by an
      installation or recovery key that was active at the checkpoint's position, over
      the head and key states of that prefix, for at most a day. */
  lemma CheckpointSpeaksForPrefix(rows: seq<Row>, op: OperatorId, c: Checkpoint, now: int, enforceFreshness: bool)
    requires Verifies(rows, op, None, Some(c), None, now, enforceFreshness)
    ensures var b := c.body; var k := b.sequence;
      && 1 <= k <= |rows| && Accepted(rows[..k], op) && b.eventSha == HeadSha(rows[..k]) && b.genesisSha == rows[0].sha
      && b.operator == op && b.store == StoreOf(rows)
      && b.keyStateSha == ChainOf(rows[..k], op, None).keyStateSha
      && b.signerKeyId in KeysAfter(rows[..k])
      && var key := KeysAfter(rows[..k])[b.signerKeyId];
      && key.status == Active
      && b.certificate == SignerCertificate(b.signerKeyId, key.installId, key.publicKey, key.fingerprint, key.kind, key.paired,
                                            key.certSequence, key.certSha)
      && c.signature == Signed(b.certificate.publicKey, CheckpointMessage(b))
      && b.issuedAt < b.expiresAt <= b.issuedAt + 24 * 60 * 60 * SECOND
      && (enforceFreshness ==> b.issuedAt <= now < b.expiresAt)
  {
    hide KeysAfter, KeyStateSha, Accepted;
    var k := c.body.sequence;
    AcceptedPrefix(rows, k, op);
    KeysPersist(rows, k, |rows|, op);
    assert rows[..|rows|] == rows;
    CertifiedOnce(rows[..k], op);
    assert Certified(rows[..k], c.body.signerKeyId, KeysAfter(rows[..k])[c.body.signerKeyId]);
  }

  /** Two checkpoints that name one head agree on the position, the genesis, the operator, the store and the
      key states, whatever ledgers they were verified on. */
  lemma CheckpointsAgree(a: seq<Row>, b: seq<Row>, opA: OperatorId, opB: OperatorId, c: Checkpoint, d: Checkpoint, s: int, t: int, enforceFreshness: bool)
    requires Verifies(a, opA, None, Some(c), None, s, enforceFreshness) && Verifies(b, opB, None, Some(d), None, t, enforceFreshness)
    requires c.body.eventSha == d.body.eventSha
    ensures c.body.sequence == d.body.sequence && c.body.genesisSha == d.body.genesisSha && c.body.operator == d.body.operator
    ensures c.body.store == d.body.store && c.body.keyStateSha == d.body.keyStateSha
  {
    hide KeysAfter, KeyStateSha, Accepted, CheckpointOk, Verifies;
    CheckpointSpeaksForPrefix(a, opA, c, s, enforceFreshness);
    CheckpointSpeaksForPrefix(b, opB, d, t, enforceFreshness);
    var pa, pb := a[..c.body.sequence], b[..d.body.sequence];
    HeadGivesLength(pa, pb, opA, opB);
    SameHeadSameHistory(pa, pb, opA, opB);
    StoreFromGenesis(a, b, pa, pb);
  }

  lemma StoreFromGenesis(a: seq<Row>, b: seq<Row>, pa: seq<Row>, pb: seq<Row>)
    requires 0 < |pa| <= |a| && 0 < |pb| <= |b| && pa == a[..|pa|] && pb == b[..|pb|] && pa[0].event == pb[0].event
    ensures StoreOf(a) == StoreOf(b)
  {
    assert a[0] == pa[0] && b[0] == pb[0];
  }

  lemma HeadGivesLength(a: seq<Row>, b: seq<Row>, opA: OperatorId, opB: OperatorId)
    requires Accepted(a, opA) && Accepted(b, opB) && HeadSha(a) == HeadSha(b)
    ensures |a| == |b| && opA == opB
  {
    hide KeysAfter, Accepted, Admissible;
    AcceptedExactly(a, opA);
    AcceptedExactly(b, opB);
    assert RowFollows(a, opA, |a| - 1) && RowFollows(b, opB, |b| - 1);
  }
}
