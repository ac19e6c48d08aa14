/** What a replayed key map says of each key, row by row, and what its digest depends on. */
module KeyStates {
  import opened Outcomes
  import opened AuthorityData
  import opened AuthorityLedger
  import opened LedgerHistory

  // ---------- each entry, from the rows that speak of it ----------

  /** The event names this key, or the installation it belongs to, as the one it ends. */
  predicate Touches(e: Event, id: KeyId, install: InstallId) {
    && e.Lifecycle?
    && (|| (e.details.StateDetails? && e.details.target == id)
        || (e.kind == KeyRotated && e.details.KeyDetails? && e.details.oldKey == Some(id))
        || (e.kind == InstallationRebound && e.details.KeyDetails? && e.details.oldInstall == Some(install)))
  }

  predicate Untouched(rows: seq<Row>, id: KeyId, install: InstallId, from: int, to: int) {
    forall j | from <= j < to && 0 <= j < |rows| :: !Touches(rows[j].event, id, install)
  }

  /** The entry repeats the certificate in this row. */
  predicate FromCertificate(key: Key, id: KeyId, row: Row) {
    && key.keyId == id && key.certSha == row.sha
    && key.paired == (key.kind == Installation)
    && match row.event
       case Genesis(_, _, _, _, install, machine, _, _, _, publicKey, fingerprint, _, _, recovery, _) =>
         if id == machine then
           key.kind == Installation && key.publicKey == publicKey && key.fingerprint == fingerprint && key.installId == install
         else
           && recovery.Some? && id == recovery.value.keyId && key.kind == Recovery
           && key.publicKey == recovery.value.publicKey && key.fingerprint == recovery.value.fingerprint
           && key.installId == recovery.value.installId
       case Lifecycle(_, _, kind, _, _, _, _, _, _, details) =>
         && details.KeyDetails? && details.binding == KeyBinding(id, key.publicKey, key.fingerprint, key.installId)
         && (key.kind == Recovery <==> kind == RecoveryCreated)
         && key.fingerprint == FingerprintDigest(key.publicKey)
  }

  /** The entry repeats what the event that ended the key says: who may end it, how and from when. */
  predicate EndedBy(key: Key, id: KeyId, e: Event) {
    && e.Lifecycle?
    && if e.details.StateDetails? then
         && key.status == (if e.kind == KeyCompromised then Compromised else Revoked)
         && key.effectiveAt == e.details.effectiveAt && key.replacement == e.details.replacement
         && (e.details.compromisedAt.Some? ==> key.compromisedAt == e.details.compromisedAt && key.compromisedAt.value <= key.effectiveAt)
         && (e.details.compromisedAt == None ==> key.compromisedAt == if e.kind == KeyCompromised then Some(e.details.effectiveAt) else None)
         && (e.kind == KeyCompromised ==> e.signedBy != id)
         && (e.kind == RecoveryRevoked ==> key.kind == Recovery)
         && e.details.affected == [key.installId] && e.details.requiredRevocations == [id]
       else
         && key.status == Retired && key.effectiveAt == e.createdAt && key.compromisedAt == None && key.replacement == None
         && (e.kind == KeyRotated ==> e.signedBy == id)
  }

  /** Certified by one row; active until the first later row that touches it, and as that row says from then on. */
  ghost predicate EntryOk(rows: seq<Row>, id: KeyId, key: Key) {
    var s := key.certSequence;
    && 1 <= s <= |rows| && FromCertificate(key, id, rows[s - 1])
    && if key.status == Active then
         && Untouched(rows, id, key.installId, s, |rows|)
         && key.effectiveAt == rows[s - 1].event.createdAt && key.compromisedAt == None && key.replacement == None
       else
         exists j :: FirstTouch(rows, id, key.installId, s, j) && EndedBy(key, id, rows[j].event)
  }

  predicate FirstTouch(rows: seq<Row>, id: KeyId, install: InstallId, from: int, j: int) {
    && from <= j < |rows| && 0 <= j && Touches(rows[j].event, id, install) && Untouched(rows, id, install, from, j)
  }

  ghost predicate EntriesOk(rows: seq<Row>, keys: KeyMap) { forall id | id in keys :: EntryOk(rows, id, keys[id]) }

  lemma UntouchedExtends(rows: seq<Row>, last: Row, id: KeyId, install: InstallId, from: int, to: int)
    requires to <= |rows|
    ensures Untouched(rows + [last], id, install, from, to) == Untouched(rows, id, install, from, to)
    ensures Untouched(rows + [last], id, install, from, |rows| + 1) <==>
      Untouched(rows, id, install, from, |rows|) && (from <= |rows| ==> !Touches(last.event, id, install))
  {
    var all := rows + [last];
    assert forall j | 0 <= j < |rows| :: all[j] == rows[j];
    hide Touches;
    if Untouched(all, id, install, from, to) {
      assert forall j | from <= j < to && 0 <= j < |rows| :: !Touches(all[j].event, id, install);
    }
    if Untouched(all, id, install, from, |rows| + 1) && from <= |rows| {
      assert !Touches(all[|rows|].event, id, install);
      assert forall j | from <= j < |rows| && 0 <= j < |rows| :: !Touches(all[j].event, id, install);
    }
  }

  /** A key that has ended stays as it is; an untouched one stays active. */
  lemma OldEntry(rows: seq<Row>, keys: KeyMap, last: Row, op: OperatorId, store: StoreId, id: KeyId)
    requires id in keys && EntryOk(rows, id, keys[id]) && Admissible(keys, last.event, op, store)
    requires id !in CertifiedBy(last.event)
    ensures id in Apply(keys, last.event, |rows| + 1, last.sha)
    ensures EntryOk(rows + [last], id, Apply(keys, last.event, |rows| + 1, last.sha)[id])
  {
    var after := Apply(keys, last.event, |rows| + 1, last.sha);
    ApplyEvolves(keys, last.event, |rows| + 1, last.sha, op, store);
    var key, all, s := keys[id], rows + [last], keys[id].certSequence;
    UntouchedExtends(rows, last, id, key.installId, s, |rows|);
    if key.status != Active {
      assert after[id] == key;
      hide Apply, Admissible, Touches, EndedBy, FromCertificate;
      var j :| FirstTouch(rows, id, key.installId, s, j) && EndedBy(key, id, rows[j].event);
      UntouchedExtends(rows, last, id, key.installId, s, j);
      assert FirstTouch(all, id, key.installId, s, j) && EndedBy(key, id, all[j].event);
    } else if Touches(last.event, id, key.installId) {
      TouchedEntry(keys, last.event, |rows| + 1, last.sha, op, store, id);
      hide Apply, Admissible, Touches, EndedBy;
      assert FirstTouch(all, id, key.installId, s, |rows|);
    } else {
      UntouchedEntry(keys, last.event, |rows| + 1, last.sha, op, store, id);
      hide Apply, Admissible, Touches, EndedBy;
    }
  }

  lemma TouchedEntry(keys: KeyMap, e: Event, sequence: int, sha: Digest, op: OperatorId, store: StoreId, id: KeyId)
    requires IsActive(keys, id) && Admissible(keys, e, op, store) && Touches(e, id, keys[id].installId) && id !in CertifiedBy(e)
    requires keys[id].compromisedAt == None && keys[id].replacement == None
    ensures id in Apply(keys, e, sequence, sha) && EndedBy(Apply(keys, e, sequence, sha)[id], id, e)
    ensures Apply(keys, e, sequence, sha)[id].status != Active
  {
  }

  lemma UntouchedEntry(keys: KeyMap, e: Event, sequence: int, sha: Digest, op: OperatorId, store: StoreId, id: KeyId)
    requires id in keys && Admissible(keys, e, op, store) && !Touches(e, id, keys[id].installId) && id !in CertifiedBy(e)
    ensures id in Apply(keys, e, sequence, sha) && Apply(keys, e, sequence, sha)[id] == keys[id]
  {
  }

  lemma NewEntry(rows: seq<Row>, keys: KeyMap, last: Row, op: OperatorId, store: StoreId, id: KeyId)
    requires Admissible(keys, last.event, op, store) && id in CertifiedBy(last.event)
    ensures id in Apply(keys, last.event, |rows| + 1, last.sha)
    ensures EntryOk(rows + [last], id, Apply(keys, last.event, |rows| + 1, last.sha)[id])
  {
    assert (rows + [last])[|rows|] == last;
  }

  lemma OnlyTheseEntries(keys: KeyMap, e: Event, sequence: int, sha: Digest, op: OperatorId, store: StoreId)
    requires Admissible(keys, e, op, store)
    ensures Apply(keys, e, sequence, sha).Keys == keys.Keys + CertifiedBy(e)
    ensures keys.Keys !! CertifiedBy(e)
  {
  }

  lemma EntriesStep(rows: seq<Row>, keys: KeyMap, last: Row, op: OperatorId, store: StoreId)
    requires EntriesOk(rows, keys) && Admissible(keys, last.event, op, store)
    ensures EntriesOk(rows + [last], Apply(keys, last.event, |rows| + 1, last.sha))
  {
    OnlyTheseEntries(keys, last.event, |rows| + 1, last.sha, op, store);
    hide Apply, Admissible, EntryOk;
    var after := Apply(keys, last.event, |rows| + 1, last.sha);
    forall id | id in after
      ensures EntryOk(rows + [last], id, after[id])
    {
      if id in keys {
        OldEntry(rows, keys, last, op, store, id);
      } else {
        NewEntry(rows, keys, last, op, store, id);
      }
    }
  }

  lemma GenesisEntries(row: Row)
    requires GenesisOk(row.event)
    ensures EntriesOk([row], GenesisKeys(row.event, row.sha))
  {
  }

  /** The entry of every key of an accepted ledger is what two of its rows say: the one
      certificate, and the first later row that ends the key, if there is one. */
  lemma {:induction false} EntryExactly(rows: seq<Row>, op: OperatorId)
    requires Accepted(rows, op)
    ensures EntriesOk(rows, KeysAfter(rows))
  {
    hide Apply, EntriesOk, Admissible, SignerOk, RowOk;
    if |rows| == 1 {
      GenesisEntries(rows[0]);
      assert rows == [rows[0]];
    } else {
      var n := |rows| - 1;
      EntryExactly(rows[..n], op);
      EntriesStep(rows[..n], KeysAfter(rows[..n]), rows[n], op, StoreOf(rows));
      LastRow(rows);
      assert rows == rows[..n] + [rows[n]];
    }
  }

  // ---------- what the key-state digest depends on ----------

  /** Two entries agree in the twelve fields the digest covers. */
  predicate SameState(a: Key, b: Key) {
    && a.keyId == b.keyId && a.publicKey == b.publicKey && a.fingerprint == b.fingerprint && a.installId == b.installId
    && a.kind == b.kind && a.status == b.status && a.paired == b.paired
    && a.certSequence == b.certSequence && a.certSha == b.certSha
    && a.effectiveAt == b.effectiveAt && a.compromisedAt == b.compromisedAt && a.replacement == b.replacement
  }

  /** Two key maps have one digest exactly when they have the same keys in the same states. */
  lemma KeyStateShaExactly(a: KeyMap, b: KeyMap)
    ensures KeyStateSha(a) == KeyStateSha(b) <==> a.Keys == b.Keys && forall id | id in a :: SameState(a[id], b[id])
  {
    var va, vb := KeyStateView(a), KeyStateView(b);
    if va == vb {
      assert a.Keys == va.Keys == vb.Keys == b.Keys;
      forall id | id in a
        ensures SameState(a[id], b[id])
      {
        assert va[id] == vb[id];
      }
    }
    if a.Keys == b.Keys && forall id | id in a :: SameState(a[id], b[id]) {
      assert va == vb;
    }
  }

  /** An admissible event brings a key or ends one, unless it is an adjudication. */
  lemma EventShows(keys: KeyMap, e: Event, sequence: int, sha: Digest, op: OperatorId, store: StoreId)
    requires Admissible(keys, e, op, store)
    ensures var after := Apply(keys, e, sequence, sha);
      if e.kind == ConflictAdjudicated then after == keys
      else (exists id :: id in after && id !in keys) || (exists id :: IsActive(keys, id) && id in after && after[id].status != Active)
  {
    var after := Apply(keys, e, sequence, sha);
    if e.details.KeyDetails? {
      assert e.details.binding.keyId in after && e.details.binding.keyId !in keys;
    } else if e.kind != ConflictAdjudicated {
      assert IsActive(keys, e.details.target) && after[e.details.target].status != Active;
    }
  }

  /** A key that came or ended on the way shows at the end. */
  lemma ShowsLater(a: KeyMap, b: KeyMap, c: KeyMap, d: KeyMap)
    requires Evolves(a, b) && Evolves(c, d)
    requires (exists id :: id in c && id !in b) || (exists id :: IsActive(b, id) && id in c && c[id].status != Active)
    requires forall id | id in a && a[id].status != Active :: id in b && b[id].status != Active
    ensures KeyStateSha(a) != KeyStateSha(d)
  {
    KeyStateShaExactly(a, d);
    if id :| id in c && id !in b {
      assert id in d && id !in a;
    } else {
      var id :| IsActive(b, id) && id in c && c[id].status != Active;
      assert d[id] == c[id];
    }
  }

  /** Between any two positions of an accepted ledger the digest a verification returns
      is the same if and only if every event between them is an adjudication. */
  lemma {:induction false} DigestChangesExactly(rows: seq<Row>, i: nat, k: nat, op: OperatorId)
    requires Accepted(rows, op) && 1 <= i <= k <= |rows|
    ensures ChainOf(rows[..i], op, None).keyStateSha == ChainOf(rows[..k], op, None).keyStateSha <==>
      forall j | i <= j < k :: rows[j].event.kind == ConflictAdjudicated
    decreases k - i
  {
    hide KeysAfter, Accepted, Apply, Admissible, KeyStateSha, Evolves, IsActive;
    if i < k {
      DigestChangesExactly(rows, i, k - 1, op);
      AcceptedRow(rows, k, op);
      EventShows(KeysAfter(rows[..k - 1]), rows[k - 1].event, k, rows[k - 1].sha, op, StoreOf(rows));
      if rows[k - 1].event.kind != ConflictAdjudicated {
        KeysPersist(rows, i, k - 1, op);
        KeysPersist(rows, k, k, op);
        EndedStays(KeysAfter(rows[..i]), KeysAfter(rows[..k - 1]));
        ShowsLater(KeysAfter(rows[..i]), KeysAfter(rows[..k - 1]), KeysAfter(rows[..k]), KeysAfter(rows[..k]));
      } else if j :| i <= j < k - 1 && rows[j].event.kind != ConflictAdjudicated {
        assert KeysAfter(rows[..k]) == KeysAfter(rows[..k - 1]);
      }
    }
  }

  lemma EndedStays(a: KeyMap, b: KeyMap)
    requires Evolves(a, b)
    ensures forall id | id in a && a[id].status != Active :: id in b && b[id].status != Active
  {
  }
}
