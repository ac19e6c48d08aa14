/** What every accepted ledger guarantees about its keys, its prefixes and the
    ledgers that agree with it on a head digest. */
module LedgerHistory {
  import opened Outcomes
  import opened AuthorityData
  import opened AuthorityLedger

  // ---------- key lifecycle ----------

  /** The parts of a key that its certificate fixes. */
  predicate SameCertificate(a: Key, b: Key) {
    && a.keyId == b.keyId && a.publicKey == b.publicKey && a.fingerprint == b.fingerprint
    && a.installId == b.installId && a.kind == b.kind && a.paired == b.paired && a.blob == b.blob
    && a.certSequence == b.certSequence && a.certSha == b.certSha
  }

  /** No key disappears, no certificate changes, and a key that has stopped
      being active is never touched again. */
  ghost predicate Evolves(before: KeyMap, after: KeyMap) {
    forall id | id in before ::
      && id in after
      && SameCertificate(before[id], after[id])
      && (before[id].status != Active ==> after[id] == before[id])
  }

  lemma EvolvesTransitive(a: KeyMap, b: KeyMap, c: KeyMap)
    requires Evolves(a, b) && Evolves(b, c)
    ensures Evolves(a, c)
  {
  }

  lemma ApplyEvolves(keys: KeyMap, e: Event, sequence: int, sha: Digest, op: OperatorId, store: StoreId)
    requires Admissible(keys, e, op, store)
    ensures Evolves(keys, Apply(keys, e, sequence, sha))
  {
  }

  /** Keys are never removed, certificates are immutable, non-active states final. */
  lemma {:induction false} KeysPersist(rows: seq<Row>, j: nat, k: nat, op: OperatorId)
    requires Accepted(rows, op) && 1 <= j <= k <= |rows|
    ensures Evolves(KeysAfter(rows[..j]), KeysAfter(rows[..k]))
    decreases k - j
  {
    hide Admissible, Apply, KeysAfter, Accepted;
    if j < k {
      KeysPersist(rows, j, k - 1, op);
      AcceptedRow(rows, k, op);
      ApplyEvolves(KeysAfter(rows[..k - 1]), rows[k - 1].event, k, rows[k - 1].sha, op, StoreOf(rows));
      EvolvesTransitive(KeysAfter(rows[..j]), KeysAfter(rows[..k - 1]), KeysAfter(rows[..k]));
    }
  }

  // ---------- each key is certified once, by an older active key ----------

  /** The key ids the event at this position introduces. */
  function CertifiedBy(e: Event): set<KeyId> {
    if e.Genesis? then {e.keyId} + if e.recovery.Some? then {e.recovery.value.keyId} else {}
    else if e.details.KeyDetails? then {e.details.binding.keyId}
    else {}
  }

  /** The certificate a key carries names the one row that introduced it. */
  ghost predicate Certified(rows: seq<Row>, id: KeyId, key: Key) {
    && key.keyId == id
    && 1 <= key.certSequence <= |rows|
    && key.certSha == rows[key.certSequence - 1].sha
    && id in CertifiedBy(rows[key.certSequence - 1].event)
    && forall i | 0 <= i < |rows| && id in CertifiedBy(rows[i].event) :: i == key.certSequence - 1
  }

  ghost predicate AllCertified(rows: seq<Row>, keys: KeyMap) {
    && (forall id | id in keys :: Certified(rows, id, keys[id]))
    && (forall i, id | 0 <= i < |rows| && id in CertifiedBy(rows[i].event) :: id in keys)
  }

  lemma CertifiedStep(rows: seq<Row>, keys: KeyMap, last: Row, op: OperatorId, store: StoreId)
    requires AllCertified(rows, keys) && Admissible(keys, last.event, op, store)
    ensures AllCertified(rows + [last], Apply(keys, last.event, |rows| + 1, last.sha))
  {
    var all, after := rows + [last], Apply(keys, last.event, |rows| + 1, last.sha);
    ApplyEvolves(keys, last.event, |rows| + 1, last.sha, op, store);
    forall id | id in after
      ensures Certified(all, id, after[id])
    {
      if id in keys {
        assert Certified(rows, id, keys[id]);
      } else {
        assert id in CertifiedBy(last.event);
      }
    }
  }

  lemma LastRow(rows: seq<Row>)
    requires |rows| > 1
    ensures var n := |rows| - 1; KeysAfter(rows) == Apply(KeysAfter(rows[..n]), rows[n].event, n + 1, rows[n].sha)
  {
    hide Apply, GenesisKeys;
  }

  lemma CertifiedGenesis(row: Row)
    requires GenesisOk(row.event)
    ensures AllCertified([row], GenesisKeys(row.event, row.sha))
  {
  }

  /** Every key id is certified by exactly one row, and its entry says which. */
  lemma {:induction false} CertifiedOnce(rows: seq<Row>, op: OperatorId)
    requires Accepted(rows, op)
    ensures AllCertified(rows, KeysAfter(rows))
  {
    hide Apply, AllCertified;
    if |rows| == 1 {
      CertifiedGenesis(rows[0]);
      assert rows == [rows[0]];
    } else {
      var n := |rows| - 1;
      CertifiedOnce(rows[..n], op);
      CertifiedStep(rows[..n], KeysAfter(rows[..n]), rows[n], op, StoreOf(rows));
      LastRow(rows);
      assert rows == rows[..n] + [rows[n]];
    }
  }

  /** A key appears in the replay exactly from its certificate's position on. */
  lemma PresentFromCertificate(rows: seq<Row>, id: KeyId, k: nat, op: OperatorId)
    requires Accepted(rows, op) && id in KeysAfter(rows) && 1 <= k <= |rows|
    ensures id in KeysAfter(rows[..k]) <==> KeysAfter(rows)[id].certSequence <= k
    ensures id in KeysAfter(rows[..k]) ==> SameCertificate(KeysAfter(rows[..k])[id], KeysAfter(rows)[id])
  {
    hide KeysAfter, Accepted;
    var keys, atK := KeysAfter(rows), KeysAfter(rows[..k]);
    CertifiedOnce(rows, op);
    assert Certified(rows, id, keys[id]);
    AcceptedPrefix(rows, k, op);
    CertifiedOnce(rows[..k], op);
    if id in atK {
      assert Certified(rows[..k], id, atK[id]);
      KeysPersist(rows, k, |rows|, op);
      assert rows[..|rows|] == rows;
    } else {
      assert forall i | 0 <= i < k :: rows[..k][i] == rows[i];
    }
  }

  /** The key whose signature introduced a key. */
  function CertifierOf(rows: seq<Row>, key: Key): KeyId
    requires 1 <= key.certSequence <= |rows|
  {
    rows[key.certSequence - 1].event.SignerId()
  }

  /** A key certified after the genesis row was signed for by a strictly older
      key of the ledger that was active just before. */
  ghost predicate SignedByOlder(rows: seq<Row>, keys: KeyMap, key: Key) {
    var s := key.certSequence;
    && 1 <= s <= |rows|
    && (s > 1 ==>
      && CertifierOf(rows, key) in keys
      && keys[CertifierOf(rows, key)].certSequence < s
      && IsActive(KeysAfter(rows[..s - 1]), CertifierOf(rows, key))
      && SignatureOk(keys[CertifierOf(rows, key)].publicKey, LedgerMessage(rows[s - 1].event), rows[s - 1].signature))
  }

  lemma CertifierIsOlder(rows: seq<Row>, id: KeyId, op: OperatorId)
    requires Accepted(rows, op) && id in KeysAfter(rows)
    ensures SignedByOlder(rows, KeysAfter(rows), KeysAfter(rows)[id])
  {
    hide Admissible, Apply, KeysAfter, Accepted;
    var keys := KeysAfter(rows);
    CertifiedOnce(rows, op);
    assert Certified(rows, id, keys[id]);
    var s := keys[id].certSequence;
    if s > 1 {
      var certifier := CertifierOf(rows, keys[id]);
      AcceptedRow(rows, s, op);
      assert certifier in KeysAfter(rows[..s - 1]);
      KeysPersist(rows, s - 1, |rows|, op);
      assert rows[..|rows|] == rows;
      PresentFromCertificate(rows, certifier, s - 1, op);
    }
  }

  /** Follow certifiers from a key back to the genesis row. */
  ghost function TrustPath(rows: seq<Row>, keys: KeyMap, id: KeyId): (path: seq<KeyId>)
    requires forall k | k in keys :: SignedByOlder(rows, keys, keys[k])
    requires id in keys
    ensures |path| > 0 && path[0] == id
    ensures forall i | 0 <= i < |path| :: path[i] in keys
    ensures |path| <= keys[id].certSequence
    ensures keys[path[|path| - 1]].certSequence == 1
    ensures forall i | 0 <= i < |path| - 1 ::
      1 <= keys[path[i]].certSequence <= |rows| && path[i + 1] == CertifierOf(rows, keys[path[i]])
    ensures forall i | 0 <= i < |path| - 1 :: keys[path[i]].certSequence > keys[path[i + 1]].certSequence
    decreases keys[id].certSequence
  {
    assert SignedByOlder(rows, keys, keys[id]);
    if keys[id].certSequence == 1 then [id]
    else
      var certifier := CertifierOf(rows, keys[id]);
      assert SignedByOlder(rows, keys, keys[certifier]);
      [id] + TrustPath(rows, keys, certifier)
  }

  /** Every key of an accepted ledger traces back to the genesis row in finitely
      many signatures, each by a then-active, strictly older key. */
  lemma EveryKeyTracesToGenesis(rows: seq<Row>, id: KeyId, op: OperatorId) returns (path: seq<KeyId>)
    requires Accepted(rows, op) && id in KeysAfter(rows)
    ensures 0 < |path| <= KeysAfter(rows)[id].certSequence && path[0] == id
    ensures forall i | 0 <= i < |path| :: path[i] in KeysAfter(rows)
    ensures KeysAfter(rows)[path[|path| - 1]].certSequence == 1
    ensures path[|path| - 1] in CertifiedBy(rows[0].event)
    ensures forall i | 0 <= i < |path| - 1 ::
      && SignedByOlder(rows, KeysAfter(rows), KeysAfter(rows)[path[i]])
      && KeysAfter(rows)[path[i]].certSequence > 1
      && path[i + 1] == CertifierOf(rows, KeysAfter(rows)[path[i]])
  {
    var keys := KeysAfter(rows);
    forall k | k in keys
      ensures SignedByOlder(rows, keys, keys[k])
    {
      CertifierIsOlder(rows, k, op);
    }
    path := TrustPath(rows, keys, id);
    CertifiedOnce(rows, op);
    var root := path[|path| - 1];
    assert Certified(rows, root, keys[root]);
    forall i | 0 <= i < |path| - 1
      ensures keys[path[i]].certSequence > 1
    {
      assert SignedByOlder(rows, keys, keys[path[i + 1]]);
    }
  }

  // ---------- at most one active installation key per installation ----------

  ghost predicate OneActive(keys: KeyMap) {
    forall a, b | a in keys && b in keys
      && keys[a].kind == Installation && keys[b].kind == Installation
      && keys[a].status == Active && keys[b].status == Active
      && keys[a].installId == keys[b].installId :: a == b
  }

  /** A rotation that turns a recovery key into a second installation key of an
      installation that already has one. */
  predicate RotatesOntoTaken(keys: KeyMap, e: Event) {
    && e.Lifecycle? && e.kind == KeyRotated && e.details.KeyDetails? && e.details.oldKey.Some?
    && var oldId := e.details.oldKey.value;
    && oldId in keys && keys[oldId].kind == Recovery
    && InstallationTaken(keys, keys[oldId].installId)
  }

  /** An admissible event keeps one active key per installation except in exactly one case. */
  lemma OneActiveStep(keys: KeyMap, e: Event, sequence: int, sha: Digest, op: OperatorId, store: StoreId)
    requires Admissible(keys, e, op, store) && OneActive(keys)
    ensures OneActive(Apply(keys, e, sequence, sha)) <==> !RotatesOntoTaken(keys, e)
  {
    var after := Apply(keys, e, sequence, sha);
    if e.details.KeyDetails? {
      var newcomer := e.details.binding.keyId;
      assert after[newcomer].kind == (if e.kind == RecoveryCreated then Recovery else Installation);
      if RotatesOntoTaken(keys, e) {
        var other :| other in keys && keys[other].kind == Installation
          && keys[other].installId == e.details.binding.installId && keys[other].status == Active;
        assert after[other] == keys[other] && other != newcomer;
      } else {
        forall a, b | a in after && b in after
          && after[a].kind == Installation && after[b].kind == Installation
          && after[a].status == Active && after[b].status == Active
          && after[a].installId == after[b].installId
          ensures a == b
        {
          OneActivePair(keys, e, sequence, sha, op, store, a, b);
        }
      }
    }
  }

  lemma OneActivePair(keys: KeyMap, e: Event, sequence: int, sha: Digest, op: OperatorId, store: StoreId, a: KeyId, b: KeyId)
    requires Admissible(keys, e, op, store) && OneActive(keys) && e.details.KeyDetails? && !RotatesOntoTaken(keys, e)
    requires a in Apply(keys, e, sequence, sha) && b in Apply(keys, e, sequence, sha)
    requires var after := Apply(keys, e, sequence, sha);
      && after[a].kind == Installation && after[b].kind == Installation
      && after[a].status == Active && after[b].status == Active
      && after[a].installId == after[b].installId
    ensures a == b
  {
    var newcomer := e.details.binding.keyId;
    if a != newcomer && b != newcomer {
      assert keys[a].status == Active && keys[b].status == Active;
    }
  }

  predicate RotatesOntoTakenAt(rows: seq<Row>, k: int)
    requires 2 <= k <= |rows|
  {
    RotatesOntoTaken(KeysAfter(rows[..k - 1]), rows[k - 1].event)
  }

  /** Every state of the ledger has at most one active installation key per
      installation if and only if no event rotates a recovery key onto an
      installation that is already taken. */
  lemma {:induction false} OneActiveAlways(rows: seq<Row>, op: OperatorId)
    requires Accepted(rows, op)
    ensures (forall k | 1 <= k <= |rows| :: OneActive(KeysAfter(rows[..k]))) <==>
            (forall k | 2 <= k <= |rows| :: !RotatesOntoTakenAt(rows, k))
  {
    hide RotatesOntoTakenAt, OneActive, KeysAfter, Accepted;
    OneActiveFirst(rows, op);
    if forall k | 2 <= k <= |rows| :: !RotatesOntoTakenAt(rows, k) {
      var k := 1;
      while k < |rows|
        invariant 1 <= k <= |rows|
        invariant forall j | 1 <= j <= k :: OneActive(KeysAfter(rows[..j]))
      {
        OneActiveAt(rows, k + 1, op);
        k := k + 1;
      }
    } else {
      var k :| 2 <= k <= |rows| && RotatesOntoTakenAt(rows, k);
      if OneActive(KeysAfter(rows[..k - 1])) {
        OneActiveAt(rows, k, op);
        assert !OneActive(KeysAfter(rows[..k]));
      }
    }
  }

  lemma OneActiveFirst(rows: seq<Row>, op: OperatorId)
    requires Accepted(rows, op)
    ensures |rows| > 0 && OneActive(KeysAfter(rows[..1]))
  {
    AcceptedPrefix(rows, 1, op);
  }

  lemma OneActiveAt(rows: seq<Row>, k: nat, op: OperatorId)
    requires Accepted(rows, op) && 2 <= k <= |rows| && OneActive(KeysAfter(rows[..k - 1]))
    ensures OneActive(KeysAfter(rows[..k])) <==> !RotatesOntoTakenAt(rows, k)
  {
    hide Admissible, Apply, KeysAfter, Accepted;
    AcceptedRow(rows, k, op);
    OneActiveStep(KeysAfter(rows[..k - 1]), rows[k - 1].event, k, rows[k - 1].sha, op, StoreOf(rows));
  }

  /** The event at position k, if a rotation, names an installation key as its old key. */
  predicate RotatesInstallationAt(rows: seq<Row>, k: int)
    requires 2 <= k <= |rows|
  {
    var e, keys := rows[k - 1].event, KeysAfter(rows[..k - 1]);
    (e.Lifecycle? && e.kind == KeyRotated && e.details.KeyDetails? && e.details.oldKey.Some?
     && e.details.oldKey.value in keys) ==>
      keys[e.details.oldKey.value].kind == Installation
  }

  /** `rotate_key` always names an installation key, so its ledgers never reach the exception. */
  lemma OneActiveWhenRotationsNameInstallations(rows: seq<Row>, op: OperatorId)
    requires Accepted(rows, op)
    requires forall k | 2 <= k <= |rows| :: RotatesInstallationAt(rows, k)
    ensures forall k | 1 <= k <= |rows| :: OneActive(KeysAfter(rows[..k]))
  {
    forall k | 2 <= k <= |rows|
      ensures !RotatesOntoTakenAt(rows, k)
    {
      assert RotatesInstallationAt(rows, k);
    }
    OneActiveAlways(rows, op);
  }

  /** A two-row ledger the replay accepts that ends with two active keys of one installation. */
  function TwoActiveLedger(): seq<Row> {
    var pk, rk, nk := seq(32, i => 1), seq(32, i => 2), seq(32, i => 3);
    var blob := Blob("keys/a.blob", TextDigest("a"), 1, "suite");
    var recovery := KeyBinding("R", rk, FingerprintDigest(rk), "laptop");
    var genesis := Genesis(1, "e1", Enrollment, "op", "laptop", "K", 0, None, "store", pk, FingerprintDigest(pk),
                           "nonce", blob, Some(recovery), None);
    var first := SignedRow(genesis, pk);
    var successor := KeyBinding("N", nk, FingerprintDigest(nk), "laptop");
    var rotation := Lifecycle(2, "e2", KeyRotated, "op", "laptop", "N", 0, Some(first.sha), "R",
                              KeyDetails(successor, Some(blob), None, Some("R"), None));
    [first, SignedRow(rotation, rk)]
  }

  lemma OneActiveCanFail()
    ensures Accepted(TwoActiveLedger(), "op")
    ensures !OneActive(KeysAfter(TwoActiveLedger()))
  {
    var rows := TwoActiveLedger();
    var first := rows[..1];
    assert rows[0] == first[0];
    var keys := KeysAfter(first);
    assert keys == GenesisKeys(rows[0].event, rows[0].sha);
    assert "K" != "R" && "N" != "R" && "N" != "K" by {
      assert "K"[0] != "R"[0] && "N"[0] != "R"[0] && "N"[0] != "K"[0];
    }
    assert Accepted(first, "op");
    assert IsActive(keys, "R") && keys["R"].kind == Recovery;
    assert SignerOk(keys, rows[1]);
    assert Admissible(keys, rows[1].event, "op", "store");
    var after := KeysAfter(rows);
    assert after == Apply(keys, rows[1].event, 2, rows[1].sha);
    assert after["K"].status == Active && after["N"].status == Active;
  }

  // ---------- a pinned head fixes the history before it ----------

  lemma {:induction false} SameHeadSameEvents(a: seq<Row>, b: seq<Row>, opA: OperatorId, opB: OperatorId)
    requires Accepted(a, opA) && Accepted(b, opB) && |a| == |b| && HeadSha(a) == HeadSha(b)
    ensures forall i | 0 <= i < |a| :: a[i].event == b[i].event && a[i].sha == b[i].sha
  {
    hide Admissible, KeysAfter, SignerOk;
    var n := |a| - 1;
    assert a[n].event == b[n].event;
    if n > 0 {
      assert HeadSha(a[..n]) == a[n - 1].sha && HeadSha(b[..n]) == b[n - 1].sha;
      SameHeadSameEvents(a[..n], b[..n], opA, opB);
      forall i | 0 <= i < n
        ensures a[i].event == b[i].event && a[i].sha == b[i].sha
      {
        assert a[i] == a[..n][i] && b[i] == b[..n][i];
      }
    }
  }

  /** The key map depends on events and digests only, not on signatures. */
  lemma {:induction false} SameEventsSameKeys(a: seq<Row>, b: seq<Row>)
    requires |a| == |b| && forall i | 0 <= i < |a| :: a[i].event == b[i].event && a[i].sha == b[i].sha
    ensures KeysAfter(a) == KeysAfter(b)
  {
    hide Apply;
    if |a| > 1 {
      SameEventsSameKeys(a[..|a| - 1], b[..|a| - 1]);
    }
  }

  lemma SameHeadSameHistory(a: seq<Row>, b: seq<Row>, opA: OperatorId, opB: OperatorId)
    requires Accepted(a, opA) && Accepted(b, opB) && |a| == |b| && HeadSha(a) == HeadSha(b)
    ensures forall i | 0 <= i < |a| :: a[i].event == b[i].event && a[i].sha == b[i].sha
    ensures KeysAfter(a) == KeysAfter(b)
  {
    hide KeysAfter, Accepted;
    SameHeadSameEvents(a, b, opA, opB);
    SameEventsSameKeys(a, b);
  }

  lemma ExtendsPinnedLedger(a: seq<Row>, b: seq<Row>, opA: OperatorId, opB: OperatorId)
    requires Accepted(a, opA) && Accepted(b, opB) && |a| > 0 && PinOk(b, PinnedHead(|a|, HeadSha(a)))
    ensures |a| <= |b|
    ensures forall i | 0 <= i < |a| :: b[i].event == a[i].event && b[i].sha == a[i].sha
    ensures KeysAfter(b[..|a|]) == KeysAfter(a)
    ensures opA == opB && StoreOf(a) == StoreOf(b)
  {
    hide KeysAfter, Accepted;
    var k := |a|;
    AcceptedPrefix(b, k, opB);
    SameHeadSameHistory(a, b[..k], opA, opB);
    forall i | 0 <= i < k
      ensures b[i].event == a[i].event && b[i].sha == a[i].sha
    {
      assert b[..k][i] == b[i];
    }
    AcceptedGenesis(a, opA);
    AcceptedGenesis(b, opB);
    assert b[0].event == a[0].event;
  }

  /** If ledger a is accepted with head (k, h) and ledger b is accepted against
      that pinned head, b extends a: same events, same key map at k.  A fork at or
      before the pin is therefore never accepted. */
  lemma PinMeansExtension(a: seq<Row>, b: seq<Row>, opA: OperatorId, opB: OperatorId, store: Option<StoreId>,
                          checkpoint: Option<Checkpoint>, now: int, enforceFreshness: bool)
    requires Accepted(a, opA)
    requires |a| > 0 && Verifies(b, opB, store, checkpoint, Some(PinnedHead(|a|, HeadSha(a))), now, enforceFreshness)
    ensures |a| <= |b|
    ensures forall i | 0 <= i < |a| :: b[i].event == a[i].event && b[i].sha == a[i].sha
    ensures KeysAfter(b[..|a|]) == KeysAfter(a)
    ensures opA == opB && StoreOf(a) == StoreOf(b)
  {
    hide KeysAfter, Accepted, CheckpointOk;
    ExtendsPinnedLedger(a, b, opA, opB);
  }

  /** Contrapositive: ledgers that disagree on some event cannot both carry the pin. */
  lemma ForkBeforePinRejected(a: seq<Row>, b: seq<Row>, i: nat, op: OperatorId, opB: OperatorId, now: int, enforceFreshness: bool)
    requires Accepted(a, op) && i < |a| && (i < |b| ==> b[i].event != a[i].event)
    ensures !Verifies(b, opB, None, None, Some(PinnedHead(|a|, HeadSha(a))), now, enforceFreshness)
  {
    if Verifies(b, opB, None, None, Some(PinnedHead(|a|, HeadSha(a))), now, enforceFreshness) {
      PinMeansExtension(a, b, op, opB, None, None, now, enforceFreshness);
    }
  }

  // ---------- checkpoints survive growth ----------

  /** The per-sequence snapshot taken inside a longer replay is the replay of the prefix. */
  lemma SnapshotIsPrefixReplay(rows: seq<Row>, hashes: seq<Digest>, snapshots: seq<KeyMap>,
                               keyStateHashes: seq<Digest>, k: nat)
    requires Tables(rows, hashes, snapshots, keyStateHashes) && 1 <= k <= |rows|
    ensures Tables(rows[..k], hashes[..k], snapshots[..k], keyStateHashes[..k])
    ensures snapshots[k - 1] == KeysAfter(rows[..k])
  {
    forall j | 0 <= j < k
      ensures snapshots[..k][j] == KeysAfter(rows[..k][..j + 1])
    {
      assert rows[..k][..j + 1] == rows[..j + 1];
    }
  }

  /** A checkpoint issued at the head of a ledger by its active signer verifies
      against every accepted extension, whatever happened to the signer since. */
  lemma CheckpointSurvivesGrowth(rows: seq<Row>, longer: seq<Row>, op: OperatorId, signer: KeyId, privateKeyOf: Bytes,
                                 issued: int, ttl: int, prior: Option<Digest>, now: int)
    requires NewCheckpoint(rows, op, signer, privateKeyOf, issued, ttl, prior).Ok?
    requires privateKeyOf == KeysAfter(rows)[signer].publicKey
    requires Accepted(longer, op) && rows <= longer
    ensures var c := NewCheckpoint(rows, op, signer, privateKeyOf, issued, ttl, prior).value;
      && Verifies(longer, op, Some(StoreOf(rows)), Some(c), Some(PinnedHead(|rows|, HeadSha(rows))), now, false)
      && (FreshAt(c.body, now) ==> Verifies(longer, op, Some(StoreOf(rows)), Some(c), None, now, true))
  {
    hide KeysAfter, KeyStateSha, Accepted;
    AcceptedGenesis(rows, op);
    var k := |rows|;
    assert longer[..k] == rows;
    assert longer[..|longer|] == longer;
    KeysPersist(longer, k, |longer|, op);
    assert SameCertificate(KeysAfter(rows)[signer], KeysAfter(longer)[signer]);
    assert ttl * SECOND <= MAX_CHECKPOINT_AGE;
  }
}
