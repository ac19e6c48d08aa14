/** Runs from the empty stores: a pairing that goes through, a conflict that two processes
    decide, and a clock that steps back. */
module CeremonyProgress {
  import opened Outcomes
  import opened AuthorityData
  import opened AuthorityLedger
  import opened LedgerHistory
  import opened AuthorityTrust
  import opened AuthorityService
  import opened ServiceRuns
  import opened SplitCeremonies
  import opened CarriedHistory
  import opened CeremonyRules
  import opened KeyStates
  import opened PairingProgress

  /** An active key of the ledger, by id, kind and public key. */
  ghost predicate HasKey(rows: seq<Row>, id: KeyId, kind: KeyKind, publicKey: Bytes) {
    && IsActive(KeysAfter(rows), id)
    && KeysAfter(rows)[id].kind == kind && KeysAfter(rows)[id].publicKey == publicKey
  }

  function Compromise(target: KeyId, reason: string): StateRequest { StateRequest(target, true, reason, 0, None, None, []) }

  /** The signer of a compromise is the bundle's recovery key. */
  lemma CompromiseCommits(db: Db, op: OperatorId, target: KeyId, reason: string, bundle: Bundle, eventId: string, proofId: string)
    requires Coherent(db, op) && !db.anchor.value.Blocked() && proofId !in db.proofs
    requires BundleOk(bundle) && HasKey(db.ledger, bundle.recoveryKey, Recovery, bundle.recoveryPublicKey)
    requires IsActive(KeysAfter(db.ledger), target) && target != bundle.recoveryKey
    requires !Blank(reason) && !EventIdUsed(db.ledger, eventId)
    ensures ChangeKeyState(db, op, Compromise(target, reason), Some(bundle), eventId, proofId, 0, 0).Ok?
  {
    hide Coherent, BundleOk, KeysAfter, ChangeKeyState, Blank, EventIdUsed, MaySign;
    StateChangeCommitsExactly(db, op, Compromise(target, reason), Some(bundle), eventId, proofId, 0, 0);
    assert MaySign(db, op, Compromise(target, reason), Some(bundle), bundle.recoveryKey, bundle.recoveryPublicKey) by {
      BundleSigns(db, op, Compromise(target, reason), bundle);
    }
  }

  lemma BundleSigns(db: Db, op: OperatorId, q: StateRequest, bundle: Bundle)
    requires BundleOk(bundle)
    ensures MaySign(db, op, q, Some(bundle), bundle.recoveryKey, bundle.recoveryPublicKey)
  {
    hide BundleOk;
  }

  // ---------- a machine with two recovery keys ----------

  /** Who takes part: an installation key, two recovery keys, and the names of events and proofs. */
  datatype Cast = Cast(
    op: OperatorId, store: StoreId, install: InstallId, key: NewKey, first: KeyBinding, second: KeyBinding, reason: string,
    events: seq<string>, proof: string, other: string)
  {
    predicate Valid() {
      && CertificateOk(first, None) && CertificateOk(second, None)
      && key.keyId != first.keyId && key.keyId != second.keyId && first.keyId != second.keyId
      && |events| == 6 && (forall i, j | 0 <= i < j < 6 :: events[i] != events[j])
      && proof != other && !Blank(reason)
    }
  }

  /** Such a cast exists, for any operator, store and reason. */
  function SomeCast(op: OperatorId, store: StoreId, install: InstallId, publicKey: Bytes, reason: string): (c: Cast)
    requires |publicKey| == 32 && !Blank(reason)
    ensures c.Valid() && c.op == op && c.store == store
  {
    hide Blank;
    var fingerprint := FingerprintDigest(publicKey);
    Cast(op, store, install, NewKey(Name(1), publicKey, Blob("k", fingerprint, 1, "s"), "n"),
         KeyBinding(Name(2), publicKey, fingerprint, install), KeyBinding(Name(3), publicKey, fingerprint, install), reason,
         [Name(1), Name(2), Name(3), Name(4), Name(5), Name(6)], Name(1), Name(2))
  }

  /** Names told apart by their length. */
  function Name(n: nat): (s: string)
    ensures |s| == n
  {
    seq(n, _ => 'x')
  }

  /** Only these event ids are in the ledger. */
  predicate UsesOnly(rows: seq<Row>, ids: seq<string>) { forall i | 0 <= i < |rows| :: rows[i].columns.eventId in ids }

  function GenesisFor(c: Cast): Event
    requires c.Valid()
  {
    Genesis(1, c.events[0], Enrollment, c.op, c.install, c.key.keyId, 0, None, c.store, c.key.publicKey,
            FingerprintDigest(c.key.publicKey), c.key.nonce, c.key.blob, Some(c.first), None)
  }

  lemma EnrollmentCommits(c: Cast) returns (m: Db)
    requires c.Valid()
    ensures Enroll(EmptyDb, c.op, c.store, c.install, c.key, Some(c.first), c.events[0], 0, 0, 0) == Ok(m)
    ensures m.ledger == [SignedRow(GenesisFor(c), c.key.publicKey)] && |m.pins| == 1 && m.proofs == map[]
    ensures Accepted(m.ledger, c.op)
    ensures NewCheckpoint(m.ledger, c.op, c.key.keyId, c.key.publicKey, 0, DAY_SECONDS, None) == Ok(m.pins[0].checkpoint)
    ensures m.pins[0].sha == CheckpointDigest(m.pins[0].checkpoint)
  {
    var row := SignedRow(GenesisFor(c), c.key.publicKey);
    var rows := [row];
    GenesisAccepted(c);
    hide Accepted, KeyStateSha;
    var keys := KeysAfter(rows);
    assert keys == GenesisKeys(row.event, row.sha);
    var checkpoint := NewCheckpoint(rows, c.op, c.key.keyId, c.key.publicKey, 0, DAY_SECONDS, None).value;
    assert Closed([checkpoint], None) by { assert [checkpoint][1..] == []; }
    m := Enroll(EmptyDb, c.op, c.store, c.install, c.key, Some(c.first), c.events[0], 0, 0, 0).value;
    assert m.pins == [] + PinsOf([checkpoint], 0);
  }

  lemma GenesisAccepted(c: Cast)
    requires c.Valid()
    ensures Accepted([SignedRow(GenesisFor(c), c.key.publicKey)], c.op)
  {
  }

  lemma GenesisHasKeys(c: Cast)
    requires c.Valid()
    ensures var rows := [SignedRow(GenesisFor(c), c.key.publicKey)];
      && HasKey(rows, c.key.keyId, Installation, c.key.publicKey) && HasKey(rows, c.first.keyId, Recovery, c.first.publicKey)
      && KeysAfter(rows).Keys == {c.key.keyId, c.first.keyId} && KeysAfter(rows)[c.key.keyId].installId == c.install
      && UsesOnly(rows, [c.events[0]])
  {
  }

  /** The enrollment's bundle: its ledger, its checkpoint and its recovery key. */
  function BundleFor(c: Cast, m: Db): Bundle
    requires |m.ledger| > 0 && |m.pins| > 0
  {
    Bundle(c.op, c.store, m.ledger[0].sha, m.ledger, [m.pins[0].checkpoint], |m.ledger|, HeadSha(m.ledger), c.first.keyId, c.first.publicKey,
           c.key.keyId, c.install, c.key.publicKey)
  }

  lemma BundleIsOk(c: Cast, m: Db)
    requires c.Valid() && m.ledger == [SignedRow(GenesisFor(c), c.key.publicKey)] && |m.pins| == 1 && Accepted(m.ledger, c.op)
    requires NewCheckpoint(m.ledger, c.op, c.key.keyId, c.key.publicKey, 0, DAY_SECONDS, None) == Ok(m.pins[0].checkpoint)
    ensures BundleOk(BundleFor(c, m))
  {
    GenesisHasKeys(c);
    var checkpoint := m.pins[0].checkpoint;
    CheckpointSurvivesGrowth(m.ledger, m.ledger, c.op, c.key.keyId, c.key.publicKey, 0, DAY_SECONDS, None, 0);
    assert StoreOf(m.ledger) == c.store;
    assert Verifies(m.ledger, c.op, Some(c.store), Some(checkpoint), None, 0, false) && Verifies(m.ledger, c.op, Some(c.store), None, None, 0, true);
    hide Verifies, KeysAfter, Accepted;
    assert HistoryOk(m.ledger, c.op, c.store, [checkpoint], None, None, 0) by {
      assert [checkpoint][1..] == [];
    }
  }

  /** What a ceremony that appends one event leaves of keys and event ids. */
  lemma UsesOnlyGrows(a: seq<Row>, b: seq<Row>, ids: seq<string>, id: string)
    requires UsesOnly(a, ids) && |b| == |a| + 1 && a == b[..|a|] && b[|a|].columns.eventId == id
    ensures UsesOnly(b, ids + [id])
  {
    forall i | 0 <= i < |b|
      ensures b[i].columns.eventId in ids + [id]
    {
      if i < |a| {
        assert b[i] == a[i];
      }
    }
  }

  lemma NotUsed(rows: seq<Row>, ids: seq<string>, id: string)
    requires UsesOnly(rows, ids) && id !in ids
    ensures !EventIdUsed(rows, id)
  {
  }

  // ---------- what each ceremony leaves ----------

  /** Grown by one event of this id, with the other keys as they were. */
  ghost predicate GrownBy(db: Db, r: Db, eventId: string, except: set<KeyId>) {
    && GrownByOne(db, r) && r.ledger[|db.ledger|].columns.eventId == eventId
    && forall id | id in KeysAfter(db.ledger) && id !in except :: id in KeysAfter(r.ledger) && KeysAfter(r.ledger)[id] == KeysAfter(db.ledger)[id]
  }

  lemma HasKeyStays(db: Db, r: Db, eventId: string, except: set<KeyId>, id: KeyId, kind: KeyKind, publicKey: Bytes)
    requires GrownBy(db, r, eventId, except) && HasKey(db.ledger, id, kind, publicKey) && id !in except
    ensures HasKey(r.ledger, id, kind, publicKey)
  {
    hide KeysAfter;
  }

  lemma RecoveryLeaves(db: Db, r: Db, bundle: Bundle, op: OperatorId, recovery: KeyBinding, eventId: string, at: int)
    requires Coherent(db, op) && CreateRecovery(db, op, recovery, eventId, at, at, at) == Ok((r, bundle))
    ensures GrownBy(db, r, eventId, {}) && r.anchor.Some? && r.anchor.value.checkpointSha.Some?
  {
    RecoveryKeeps(db, r, bundle, op, recovery, eventId, at, at, at);
    hide Accepted, KeysAfter, RowAgrees, CreateRecovery, CheckpointAndPin, RowsAgree;
    var signer, row := RecoverySteps(db, op, recovery, eventId, at, at, at);
    var appended := db.(ledger := db.ledger + [row]);
    PinnedAtHead(appended, op, signer, db.keyRows[signer].publicKey, DAY_SECONDS, at, at);
    AppendedFacts(db, row, op);
    NewKeyLeavesOthers(KeysAfter(db.ledger), row, |db.ledger| + 1, op, StoreOf(db.ledger));
  }

  lemma CompromiseTables(db: Db, r: Db, op: OperatorId, q: StateRequest, bundle: Option<Bundle>, eventId: string, proofId: string, at: int, now: int)
    returns (row: Row, signer: (KeyId, Bytes))
    requires Coherent(db, op) && ChangeKeyState(db, op, q, bundle, eventId, proofId, at, now) == Ok(r) && q.compromised
    ensures |db.ledger| > 0 && q.target in KeysAfter(db.ledger) && row == StateRow(db, op, q, signer, eventId, at)
    ensures r.ledger == db.ledger + [row] && Accepted(r.ledger, op) && r.proofs.Keys == db.proofs.Keys + {proofId}
    ensures r.anchor.Some? && db.anchor.Some? && r.anchor.value.checkpointSha == db.anchor.value.checkpointSha
  {
    hide Coherent, StateRow, Accepted, KeysAfter, ChangeKeyState, ReplayAndAdvance, Marked, AnchoredAtHead;
    signer, row := StateSteps(db, op, q, bundle, eventId, proofId, at, now);
    AdvancedAtHead(Marked(db, q, row), op, now);
    MarkedIs(db, q, row);
  }

  lemma CompromiseLeaves(db: Db, r: Db, op: OperatorId, q: StateRequest, bundle: Option<Bundle>, eventId: string, proofId: string, at: int, now: int)
    requires Coherent(db, op) && ChangeKeyState(db, op, q, bundle, eventId, proofId, at, now) == Ok(r) && q.compromised
    ensures GrownBy(db, r, eventId, {q.target}) && r.proofs.Keys == db.proofs.Keys + {proofId}
    ensures r.anchor.Some? && db.anchor.Some? && r.anchor.value.checkpointSha == db.anchor.value.checkpointSha
  {
    var row, signer := CompromiseTables(db, r, op, q, bundle, eventId, proofId, at, now);
    CoherentLedger(db, op);
    hide StateRow, AnchoredAtHead, AtMostOneActive, HoldMatches, Accepted, KeysAfter, RowsAgree, ChangeKeyState, Marked;
    StateRowFacts(db, op, q, signer, eventId, at, row);
    StateRowId(db, op, q, signer, eventId, at);
  }

  lemma StateRowId(db: Db, op: OperatorId, q: StateRequest, signer: (KeyId, Bytes), eventId: string, at: int)
    requires |db.ledger| > 0 && q.target in KeysAfter(db.ledger)
    ensures StateRow(db, op, q, signer, eventId, at).columns.eventId == eventId
  {
    hide KeysAfter;
  }

  lemma DecisionLeaves(db: Db, r: Db, op: OperatorId, a: Ceremony)
    requires Coherent(db, op) && a.AdjudicateCeremony? && Attempt(db, op, a) == Ok(r)
    ensures GrownBy(db, r, a.eventId, {}) && r.proofs.Keys == db.proofs.Keys && Open(r.proofs) == {} && Coherent(r, op)
  {
    hide Coherent, Accepted, KeysAfter, Adjudicate;
    AdjudicationKeeps(db, r, op, a.proofId, a.chosen, a.reason, a.decidedWith, a.eventId, a.at);
    FirstUsesItsId(db, r, op, a);
    var row := AdjudicationSteps(db, op, a.proofId, a.chosen, a.reason, a.decidedWith, a.eventId, a.at);
  }

  // ---------- the machine in conflict ----------

  lemma SigningKeyIs(db: Db, op: OperatorId, id: KeyId, publicKey: Bytes)
    requires Coherent(db, op) && !db.anchor.value.Blocked() && ActiveRows(db.keyRows) == {id}
    requires HasKey(db.ledger, id, Installation, publicKey)
    ensures SigningKey(db, op) == Ok(id)
  {
    hide Accepted, KeysAfter, RowAgrees;
    assert id in ActiveRows(db.keyRows);
    RowHasStatus(db, id);
  }

  /** The compromise ceremonies of the cast. */
  function CompromiseOf(target: KeyId, c: Cast, bundle: Bundle, eventId: string, proof: string): Ceremony {
    StateCeremony(Compromise(target, c.reason), Some(bundle), eventId, proof, 0, 0)
  }

  function DecisionOn(c: Cast, chosen: Digest, bundle: Bundle, eventId: string): Ceremony {
    AdjudicateCeremony(c.proof, chosen, c.reason, bundle, eventId, 0)
  }

  lemma EnrolledMachine(c: Cast) returns (enrolled: Db, bundle: Bundle)
    requires c.Valid()
    ensures Enroll(EmptyDb, c.op, c.store, c.install, c.key, Some(c.first), c.events[0], 0, 0, 0) == Ok(enrolled)
    ensures Coherent(enrolled, c.op) && !enrolled.anchor.value.Blocked() && enrolled.proofs == map[] && Carried(enrolled, c.op)
    ensures BundleOk(bundle) && bundle.recoveryKey == c.first.keyId && bundle.recoveryPublicKey == c.first.publicKey
    ensures SigningKey(enrolled, c.op) == Ok(c.key.keyId)
    ensures HasKey(enrolled.ledger, c.key.keyId, Installation, c.key.publicKey) && HasKey(enrolled.ledger, c.first.keyId, Recovery, c.first.publicKey)
    ensures c.second.keyId !in KeysAfter(enrolled.ledger) && UsesOnly(enrolled.ledger, [c.events[0]])
  {
    hide Enroll, Accepted, KeysAfter, BundleOk, Coherent, CertificateOk, SigningKey, NewCheckpoint, GenesisFor, HasKey, UsesOnly, Carried;
    enrolled := EnrollmentCommits(c);
    bundle := BundleFor(c, enrolled);
    BundleIsOk(c, enrolled);
    GenesisHasKeys(c);
    EnrolledReady(c, enrolled);
  }

  lemma EnrolledReady(c: Cast, enrolled: Db)
    requires c.Valid() && Enroll(EmptyDb, c.op, c.store, c.install, c.key, Some(c.first), c.events[0], 0, 0, 0) == Ok(enrolled)
    requires HasKey(enrolled.ledger, c.key.keyId, Installation, c.key.publicKey)
    ensures Coherent(enrolled, c.op) && !enrolled.anchor.value.Blocked() && Carried(enrolled, c.op)
    ensures SigningKey(enrolled, c.op) == Ok(c.key.keyId)
  {
    hide Enroll, KeysAfter, Coherent, CertificateOk, SigningKey, HasKey, Carried;
    EnrollmentCarries(EmptyDb, enrolled, c.op, c.store, c.install, c.key, Some(c.first), c.events[0], 0, 0, 0);
    EnrollStarts(EmptyDb, enrolled, c.op, c.store, c.install, c.key, Some(c.first), c.events[0], 0, 0, 0);
    SigningKeyIs(enrolled, c.op, c.key.keyId, c.key.publicKey);
  }

  /** The enrolled machine certifies the second recovery key. */
  lemma SecondKeyCertified(c: Cast, enrolled: Db) returns (m: Db)
    requires c.Valid() && Coherent(enrolled, c.op) && !enrolled.anchor.value.Blocked() && Carried(enrolled, c.op)
    requires SigningKey(enrolled, c.op) == Ok(c.key.keyId) && c.second.keyId !in KeysAfter(enrolled.ledger)
    requires UsesOnly(enrolled.ledger, [c.events[0]])
    ensures Attempt(enrolled, c.op, RecoveryCeremony(c.second, c.events[1], 0, 0, 0)) == Ok(m)
    ensures Coherent(m, c.op) && !m.anchor.value.Blocked() && m.proofs == enrolled.proofs && m.anchor.value.checkpointSha.Some?
    ensures GrownBy(enrolled, m, c.events[1], {}) && IsActive(KeysAfter(m.ledger), c.second.keyId)
    ensures UsesOnly(m.ledger, [c.events[0]] + [c.events[1]])
  {
    hide Accepted, KeysAfter, Coherent, CreateRecovery, SigningKey, Carried;
    NotUsed(enrolled.ledger, [c.events[0]], c.events[1]);
    CoherentHold(enrolled, c.op);
    RecoveryCommitsExactly(enrolled, c.op, c.second, c.events[1], 0, 0, 0);
    var r := CreateRecovery(enrolled, c.op, c.second, c.events[1], 0, 0, 0).value;
    m := r.0;
    RecoveryKeeps(enrolled, m, r.1, c.op, c.second, c.events[1], 0, 0, 0);
    RecoveryLeaves(enrolled, m, r.1, c.op, c.second, c.events[1], 0);
    UsesOnlyGrows(enrolled.ledger, m.ledger, [c.events[0]], c.events[1]);
    CoherentHold(m, c.op);
  }

  lemma RunOfTwo(db: Db, op: OperatorId, a: Ceremony, b: Ceremony)
    ensures ServiceRuns.Run(db, op, [a, b]) == Perform(Perform(db, op, a), op, b)
  {
    hide Perform;
    assert [a, b][..1] == [a] && [a][..0] == [];
    assert ServiceRuns.Run(db, op, [a]) == Perform(db, op, a);
  }

  /** A machine reached from enrollment whose key was declared compromised, with that conflict open. */
  lemma MachineInConflict(c: Cast) returns (enrolled: Db, bundle: Bundle, m: Db, chosen: Digest)
    requires c.Valid()
    ensures Enroll(EmptyDb, c.op, c.store, c.install, c.key, Some(c.first), c.events[0], 0, 0, 0) == Ok(enrolled)
    ensures m == ServiceRuns.Run(enrolled, c.op,
      [RecoveryCeremony(c.second, c.events[1], 0, 0, 0), CompromiseOf(c.key.keyId, c, bundle, c.events[2], c.proof)])
    ensures Coherent(m, c.op) && DecisionsInLedger(m.ledger, m.proofs) && Open(m.proofs) == m.proofs.Keys == {c.proof}
    ensures m.anchor.value.checkpointSha == Some(chosen)
    ensures BundleOk(bundle) && bundle.recoveryKey == c.first.keyId && bundle.recoveryPublicKey == c.first.publicKey
    ensures HasKey(m.ledger, c.first.keyId, Recovery, c.first.publicKey) && IsActive(KeysAfter(m.ledger), c.second.keyId)
    ensures UsesOnly(m.ledger, [c.events[0]] + [c.events[1]] + [c.events[2]])
  {
    hide Accepted, KeysAfter, Coherent, ChangeKeyState, CertificateOk, SigningKey, BundleOk, Enroll, CreateRecovery, Carried, EventIdUsed, UsesOnly, Blank;
    enrolled, bundle := EnrolledMachine(c);
    var certified := SecondKeyCertified(c, enrolled);
    HasKeyStays(enrolled, certified, c.events[1], {}, c.key.keyId, Installation, c.key.publicKey);
    HasKeyStays(enrolled, certified, c.events[1], {}, c.first.keyId, Recovery, c.first.publicKey);
    NotUsed(certified.ledger, [c.events[0]] + [c.events[1]], c.events[2]);
    CoherentHold(certified, c.op);
    CompromiseCommits(certified, c.op, c.key.keyId, c.reason, bundle, c.events[2], c.proof);
    var q := Compromise(c.key.keyId, c.reason);
    m := ChangeKeyState(certified, c.op, q, Some(bundle), c.events[2], c.proof, 0, 0).value;
    StateChangeKeeps(certified, m, c.op, q, Some(bundle), c.events[2], c.proof, 0, 0);
    CompromiseLeaves(certified, m, c.op, q, Some(bundle), c.events[2], c.proof, 0, 0);
    HasKeyStays(certified, m, c.events[2], {c.key.keyId}, c.first.keyId, Recovery, c.first.publicKey);
    UsesOnlyGrows(certified.ledger, m.ledger, [c.events[0]] + [c.events[1]], c.events[2]);
    chosen := certified.anchor.value.checkpointSha.value;
    RunOfTwo(enrolled, c.op, RecoveryCeremony(c.second, c.events[1], 0, 0, 0), CompromiseOf(c.key.keyId, c, bundle, c.events[2], c.proof));
  }

  /** Two processes decide the one open conflict of that machine: both commit, the
      second while writes are open, and its decision replaces the first. */
  lemma TwoProcessesDecide(c: Cast) returns (enrolled: Db, bundle: Bundle, m: Db, steps: seq<SplitStep>)
    requires c.Valid()
    ensures Enroll(EmptyDb, c.op, c.store, c.install, c.key, Some(c.first), c.events[0], 0, 0, 0) == Ok(enrolled)
    ensures m == ServiceRuns.Run(enrolled, c.op,
      [RecoveryCeremony(c.second, c.events[1], 0, 0, 0), CompromiseOf(c.key.keyId, c, bundle, c.events[2], c.proof)])
    ensures Coherent(m, c.op) && DecisionsInLedger(m.ledger, m.proofs) && |steps| == 4
    ensures var between := SplitRun(m, c.op, steps[..3]);
      && SplitRun(m, c.op, steps) == SplitNext(between, c.op, steps[3])
      && between.db.anchor.Some? && !between.db.anchor.value.Blocked() && Overrides(between, c.op, steps[3])
      && !ProofsLast(between.db.proofs, SplitRun(m, c.op, steps).db.proofs)
  {
    hide Coherent, BundleOk, KeysAfter, Accepted, Adjudicate, DecisionsInLedger, Overrides, ProofsLast, SplitNext, SplitRun, Enroll;
    var chosen;
    enrolled, bundle, m, chosen := MachineInConflict(c);
    var ids := [c.events[0]] + [c.events[1]] + [c.events[2]];
    NotUsed(m.ledger, ids, c.events[3]);
    NotUsed(m.ledger, ids, c.events[4]);
    DecisionCommitsExactly(m, c.op, c.proof, chosen, c.reason, bundle, c.events[3], 0);
    DecisionCommitsExactly(m, c.op, c.proof, chosen, c.reason, bundle, c.events[4], 0);
    var first, second := DecisionOn(c, chosen, bundle, c.events[3]), DecisionOn(c, chosen, bundle, c.events[4]);
    steps := [Begin(0, first), Begin(1, second), Commit(0), Commit(1)];
    BothDecisionsCommit(m, c.op, first, second);
  }

  // ---------- writes reopened with a conflict undecided ----------

  /** Six steps of three processes: two read the conflict, the first decides it, a third
      opens another conflict, and the second writes its decision. */
  function SixSteps(first: Ceremony, second: Ceremony, third: Ceremony): seq<SplitStep> {
    [Begin(0, first), Begin(1, second), Commit(0), Begin(2, third), Commit(2), Commit(1)]
  }

  lemma BeginStep(s: System, op: OperatorId, i: nat, c: Ceremony)
    requires i !in s.open && Opens(s.db, op, c)
    ensures SplitNext(s, op, Begin(i, c)) == System(s.db, s.open[i := Reading(c, s.db)])
  {
    hide Opens, Writes;
  }

  lemma CommitStep(s: System, op: OperatorId, i: nat, r: Db)
    requires i in s.open && Opens(s.open[i].seen, op, s.open[i].ceremony) && Writes(s.open[i].seen, s.db, op, s.open[i].ceremony) == Ok(r)
    ensures SplitNext(s, op, Commit(i)) == System(r, s.open - {i})
  {
    hide Opens, Writes;
  }

  lemma NothingRun(m: Db, op: OperatorId, steps: seq<SplitStep>)
    requires |steps| == 0
    ensures SplitRun(m, op, steps) == System(m, map[])
  {
  }

  lemma FirstThree(m: Db, r1: Db, op: OperatorId, first: Ceremony, second: Ceremony, third: Ceremony)
    requires Opens(m, op, first) && Opens(m, op, second) && Writes(m, m, op, first) == Ok(r1)
    ensures SplitRun(m, op, SixSteps(first, second, third)[..3]) == System(r1, map[1 := Reading(second, m)])
  {
    hide Opens, Writes, SplitRun, SplitNext;
    var steps := SixSteps(first, second, third);
    NothingRun(m, op, steps[..0]);
    var started := System(m, map[][0 := Reading(first, m)]);
    var begun := System(m, started.open[1 := Reading(second, m)]);
    SplitUnfolds(m, op, steps, 0);
    BeginStep(System(m, map[]), op, 0, first);
    SplitUnfolds(m, op, steps, 1);
    BeginStep(started, op, 1, second);
    SplitUnfolds(m, op, steps, 2);
    CommitStep(begun, op, 0, r1);
    assert begun.open - {0} == map[1 := Reading(second, m)];
  }

  lemma FirstFive(m: Db, r1: Db, r2: Db, op: OperatorId, first: Ceremony, second: Ceremony, third: Ceremony)
    requires Opens(m, op, first) && Opens(m, op, second) && Opens(r1, op, third)
    requires Writes(m, m, op, first) == Ok(r1) && Writes(r1, r1, op, third) == Ok(r2)
    ensures SplitRun(m, op, SixSteps(first, second, third)[..5]) == System(r2, map[1 := Reading(second, m)])
    ensures SplitRun(m, op, SixSteps(first, second, third)) == SplitNext(System(r2, map[1 := Reading(second, m)]), op, Commit(1))
  {
    hide Opens, Writes, SplitRun, SplitNext;
    var steps := SixSteps(first, second, third);
    var decided := System(r1, map[1 := Reading(second, m)]);
    var reading := System(r1, decided.open[2 := Reading(third, r1)]);
    FirstThree(m, r1, op, first, second, third);
    SplitUnfolds(m, op, steps, 3);
    BeginStep(decided, op, 2, third);
    SplitUnfolds(m, op, steps, 4);
    CommitStep(reading, op, 2, r2);
    assert reading.open - {2} == decided.open;
    SplitUnfolds(m, op, steps, 5);
    assert steps[..6] == steps;
  }

  /** After the first decision the second recovery key is declared compromised. */
  lemma OtherConflictOpens(c: Cast, m: Db, r1: Db, first: Ceremony, bundle: Bundle) returns (r2: Db)
    requires c.Valid() && Coherent(m, c.op) && Open(m.proofs) == m.proofs.Keys == {c.proof}
    requires BundleOk(bundle) && bundle.recoveryKey == c.first.keyId && bundle.recoveryPublicKey == c.first.publicKey
    requires HasKey(m.ledger, c.first.keyId, Recovery, c.first.publicKey) && IsActive(KeysAfter(m.ledger), c.second.keyId)
    requires first.AdjudicateCeremony? && first.eventId == c.events[3] && first.proofId == c.proof && Attempt(m, c.op, first) == Ok(r1)
    requires UsesOnly(m.ledger, [c.events[0]] + [c.events[1]] + [c.events[2]])
    ensures Attempt(r1, c.op, CompromiseOf(c.second.keyId, c, bundle, c.events[5], c.other)) == Ok(r2)
    ensures Coherent(r2, c.op) && c.other in Open(r2.proofs) && c.proof !in Open(r2.proofs) && HasKey(r2.ledger, c.first.keyId, Recovery, c.first.publicKey)
    ensures UsesOnly(r2.ledger, [c.events[0]] + [c.events[1]] + [c.events[2]] + [c.events[3]] + [c.events[5]])
  {
    hide Coherent, Accepted, KeysAfter, BundleOk, ChangeKeyState, CertificateOk, Adjudicate;
    var ids := [c.events[0]] + [c.events[1]] + [c.events[2]];
    DecisionLeaves(m, r1, c.op, first);
    HasKeyStays(m, r1, c.events[3], {}, c.first.keyId, Recovery, c.first.publicKey);
    UsesOnlyGrows(m.ledger, r1.ledger, ids, c.events[3]);
    NotUsed(r1.ledger, ids + [c.events[3]], c.events[5]);
    CoherentHold(r1, c.op);
    CompromiseCommits(r1, c.op, c.second.keyId, c.reason, bundle, c.events[5], c.other);
    var q := Compromise(c.second.keyId, c.reason);
    r2 := ChangeKeyState(r1, c.op, q, Some(bundle), c.events[5], c.other, 0, 0).value;
    StateChangeKeeps(r1, r2, c.op, q, Some(bundle), c.events[5], c.other, 0, 0);
    CompromiseLeaves(r1, r2, c.op, q, Some(bundle), c.events[5], c.other, 0, 0);
    HasKeyStays(r1, r2, c.events[5], {c.second.keyId}, c.first.keyId, Recovery, c.first.publicKey);
    UsesOnlyGrows(r1.ledger, r2.ledger, ids + [c.events[3]], c.events[5]);
  }

  /** The second decision, read before the first was written, still commits. */
  lemma StaleDecisionCommits(c: Cast, m: Db, r2: Db, second: Ceremony)
    requires c.Valid() && Coherent(r2, c.op) && second.AdjudicateCeremony? && second.eventId == c.events[4] && second.reason == c.reason
    requires second.decidedWith.recoveryKey == c.first.keyId && second.decidedWith.recoveryPublicKey == c.first.publicKey
    requires Opens(m, c.op, second) && HasKey(r2.ledger, c.first.keyId, Recovery, c.first.publicKey) && second.proofId !in Open(r2.proofs)
    requires UsesOnly(r2.ledger, [c.events[0]] + [c.events[1]] + [c.events[2]] + [c.events[3]] + [c.events[5]])
    ensures Overrides(System(r2, map[1 := Reading(second, m)]), c.op, Commit(1))
  {
    hide Coherent, Accepted, KeysAfter, BundleOk, CertificateOk, DecisionWrite, Blank;
    CoherentLedger(r2, c.op);
    NotUsed(r2.ledger, [c.events[0]] + [c.events[1]] + [c.events[2]] + [c.events[3]] + [c.events[5]], c.events[4]);
    var d := ReadConflict(m, c.op, second.proofId, second.chosen, second.reason, second.decidedWith).value;
    DecisionWriteExactly(r2, c.op, d, c.events[4], second.at);
  }

  /** On the same machine, the second decision is written while another conflict is
      open: writes are open again with that conflict undecided. */
  lemma WritesReopenUndecided(c: Cast) returns (enrolled: Db, bundle: Bundle, m: Db, steps: seq<SplitStep>)
    requires c.Valid()
    ensures Enroll(EmptyDb, c.op, c.store, c.install, c.key, Some(c.first), c.events[0], 0, 0, 0) == Ok(enrolled)
    ensures m == ServiceRuns.Run(enrolled, c.op,
      [RecoveryCeremony(c.second, c.events[1], 0, 0, 0), CompromiseOf(c.key.keyId, c, bundle, c.events[2], c.proof)])
    ensures Coherent(m, c.op) && DecisionsInLedger(m.ledger, m.proofs) && |steps| == 6
    ensures var s := SplitRun(m, c.op, steps[..5]); var r := SplitRun(m, c.op, steps).db;
      && s.db.anchor.Some? && s.db.anchor.value.Blocked() && Overrides(s, c.op, steps[5])
      && r.anchor.Some? && !r.anchor.value.Blocked() && c.other in Open(r.proofs) && !Coherent(r, c.op)
  {
    hide Coherent, BundleOk, KeysAfter, Accepted, DecisionsInLedger, Overrides, SplitNext, SplitRun, Enroll, Opens, Writes, Attempt, Later, CertificateOk;
    var chosen;
    enrolled, bundle, m, chosen := MachineInConflict(c);
    var ids := [c.events[0]] + [c.events[1]] + [c.events[2]];
    var first, second := DecisionOn(c, chosen, bundle, c.events[3]), DecisionOn(c, chosen, bundle, c.events[4]);
    var third := CompromiseOf(c.second.keyId, c, bundle, c.events[5], c.other);
    var r1 := DecisionCommits(c, m, chosen, bundle, ids, c.events[3]);
    var _ := DecisionCommits(c, m, chosen, bundle, ids, c.events[4]);
    var r2 := OtherConflictOpens(c, m, r1, first, bundle);
    HalvesMakeTheCeremony(m, c.op, first);
    HalvesMakeTheCeremony(m, c.op, second);
    HalvesMakeTheCeremony(r1, c.op, third);
    steps := SixSteps(first, second, third);
    FirstFive(m, r1, r2, c.op, first, second, third);
    StaleDecisionCommits(c, m, r2, second);
    var s := System(r2, map[1 := Reading(second, m)]);
    CommitIsLater(m, r1, c.op, first);
    CommitIsLater(r1, r2, c.op, third);
    LaterExtends(m, r1, r2);
    assert SplitOk(s, c.op);
    OverrideReopensWrites(s, c.op, Commit(1), c.other);
    OverrideReplacesDecision(s, c.op, Commit(1));
  }

  lemma DecisionCommits(c: Cast, m: Db, chosen: Digest, bundle: Bundle, ids: seq<string>, eventId: string) returns (r: Db)
    requires c.Valid() && Coherent(m, c.op) && Open(m.proofs) == {c.proof} && m.anchor.value.checkpointSha == Some(chosen)
    requires BundleOk(bundle) && bundle.recoveryKey == c.first.keyId && bundle.recoveryPublicKey == c.first.publicKey
    requires HasKey(m.ledger, c.first.keyId, Recovery, c.first.publicKey) && UsesOnly(m.ledger, ids) && eventId !in ids
    ensures Attempt(m, c.op, DecisionOn(c, chosen, bundle, eventId)) == Ok(r)
  {
    hide Coherent, BundleOk, KeysAfter, Accepted, Adjudicate, CertificateOk;
    NotUsed(m.ledger, ids, eventId);
    DecisionCommitsExactly(m, c.op, c.proof, chosen, c.reason, bundle, eventId, 0);
    r := Adjudicate(m, c.op, c.proof, chosen, c.reason, bundle, eventId, 0).value;
  }

  // ---------- a clock that steps back ----------

  /** An enrolled machine whose clock steps back before its next checkpoint: a recovery
      ceremony still commits, and no target ever accepts its bundle. */
  lemma StepBackSpoilsBundle(c: Cast) returns (enrolled: Db, m: Db, r: Db, bundle: Bundle)
    requires c.Valid()
    ensures Enroll(EmptyDb, c.op, c.store, c.install, c.key, Some(c.first), c.events[0], 0, 0, 0) == Ok(enrolled)
    ensures CreateCheckpoint(enrolled, c.op, 60, -1, -1) == Ok(m)
    ensures CreateRecovery(m, c.op, c.second, c.events[1], 0, 0, 0) == Ok((r, bundle)) && !BundleOk(bundle)
  {
    hide Coherent, BundleOk, KeysAfter, Accepted, Enroll, SigningKey, Carried, CreateCheckpoint, CreateRecovery, CheckpointsOf, HeadSha, RowsAgree;
    enrolled, bundle := EnrolledMachine(c);
    CheckpointCommitsExactly(enrolled, c.op, 60, -1, -1);
    m := CreateCheckpoint(enrolled, c.op, 60, -1, -1).value;
    CheckpointCarries(enrolled, m, c.op, 60, -1, -1);
    CheckpointKeeps(enrolled, m, c.op, 60, -1, -1);
    EnrolledPin(c, enrolled);
    NotUsed(m.ledger, [c.events[0]], c.events[1]);
    CoherentHold(m, c.op);
    assert Open(m.proofs) == {};
    SigningKeyStays(enrolled, m, c.op, c.key.keyId);
    RecoveryCommitsExactly(m, c.op, c.second, c.events[1], 0, 0, 0);
    var made := CreateRecovery(m, c.op, c.second, c.events[1], 0, 0, 0).value;
    r, bundle := made.0, made.1;
    BundleVerifiesExactly(m, r, bundle, c.op, c.second, c.events[1], 0, 0, 0);
    assert m.pins[0] == m.pins[..1][0];
  }

  lemma EnrolledPin(c: Cast, enrolled: Db)
    requires c.Valid() && Enroll(EmptyDb, c.op, c.store, c.install, c.key, Some(c.first), c.events[0], 0, 0, 0) == Ok(enrolled)
    ensures |enrolled.pins| == 1 && enrolled.pins[0].acceptedAt == 0
  {
    hide Accepted, KeyStateSha, Closed, Distinct, RecoveryInChain, KeysAfter;
  }

  lemma SigningKeyStays(a: Db, b: Db, op: OperatorId, key: KeyId)
    requires SigningKey(a, op) == Ok(key) && Coherent(b, op) && !b.anchor.value.Blocked() && b.ledger == a.ledger && b.keyRows == a.keyRows
    ensures SigningKey(b, op) == Ok(key)
  {
    hide Accepted, KeysAfter, RowsAgree, SigningKey, HoldMatches;
    SigningKeyExactly(a, op, key);
    SigningKeyExactly(b, op, key);
  }

  // ---------- a pairing from the empty stores ----------

  /** After the recovery ceremony the machine can still sign, and knows these three keys only. */
  lemma AfterRecovery(c: Cast, s0: Db, s1: Db, bundle: Bundle)
    requires c.Valid() && Coherent(s0, c.op) && Carried(s0, c.op) && !s0.anchor.value.Blocked() && s0.proofs == map[]
    requires SigningKey(s0, c.op) == Ok(c.key.keyId) && KeysAfter(s0.ledger).Keys == {c.key.keyId, c.first.keyId}
    requires HasKey(s0.ledger, c.key.keyId, Installation, c.key.publicKey) && HasKey(s0.ledger, c.first.keyId, Recovery, c.first.publicKey)
    requires CreateRecovery(s0, c.op, c.second, c.events[1], 0, 0, 0) == Ok((s1, bundle))
    ensures Coherent(s1, c.op) && Carried(s1, c.op) && SigningKey(s1, c.op) == Ok(c.key.keyId)
    ensures KeysAfter(s1.ledger).Keys == {c.key.keyId, c.first.keyId, c.second.keyId}
    ensures KeysAfter(s1.ledger)[c.first.keyId].kind == KeysAfter(s1.ledger)[c.second.keyId].kind == Recovery
    ensures KeysAfter(s1.ledger)[c.key.keyId].installId == KeysAfter(s0.ledger)[c.key.keyId].installId
  {
    hide Accepted, KeysAfter, Coherent, Carried, CreateRecovery, SigningKey, RowsAgree, OneActiveRow, CertificateOk;
    RecoveryKeeps(s0, s1, bundle, c.op, c.second, c.events[1], 0, 0, 0);
    RecoveryCarries(s0, s1, bundle, c.op, c.second, c.events[1], 0, 0, 0);
    RecoveryLeaves(s0, s1, bundle, c.op, c.second, c.events[1], 0);
    HasKeyStays(s0, s1, c.events[1], {}, c.key.keyId, Installation, c.key.publicKey);
    CoherentHold(s1, c.op);
    CoherentLedger(s0, c.op);
    CoherentLedger(s1, c.op);
    assert Open(s1.proofs) == {};
    SigningKeyExactly(s0, c.op, c.key.keyId);
    SigningKeyExactly(s1, c.op, c.key.keyId);
    RowsAgreeHere(s1, c.op);
    StillOneRow(s0, s1, c.key.keyId);
    KeysGrow(s0, s1, bundle, c);
  }

  lemma RowsAgreeHere(db: Db, op: OperatorId)
    requires Coherent(db, op)
    ensures RowsAgree(db.ledger, db.keyRows) && db.anchor.Some?
  {
    hide Accepted, KeysAfter, RowAgrees;
  }

  lemma StillOneRow(a: Db, b: Db, key: KeyId)
    requires OneActiveRow(a, key) && b.keyRows == a.keyRows && |a.ledger| <= |b.ledger|
    ensures OneActiveRow(b, key)
  {
  }

  lemma KeysGrow(s0: Db, s1: Db, bundle: Bundle, c: Cast)
    requires c.Valid() && Accepted(s0.ledger, c.op) && Accepted(s1.ledger, c.op) && |s0.ledger| > 0
    requires CreateRecovery(s0, c.op, c.second, c.events[1], 0, 0, 0) == Ok((s1, bundle)) && GrownByOne(s0, s1)
    ensures KeysAfter(s1.ledger).Keys == KeysAfter(s0.ledger).Keys + {c.second.keyId}
  {
    hide Accepted, KeysAfter, SigningKey, CheckpointAndPin, Admissible, Apply, CertificateOk, HistoryOf;
    var row := s1.ledger[|s0.ledger|];
    assert s1.ledger == s0.ledger + [row];
    AppendedFacts(s0, row, c.op);
    OnlyTheseEntries(KeysAfter(s0.ledger), row.event, |s0.ledger| + 1, row.sha, c.op, StoreOf(s0.ledger));
  }

  lemma InstallationFree(keys: KeyMap, c: Cast, install: InstallId)
    requires keys.Keys == {c.key.keyId, c.first.keyId, c.second.keyId} && keys[c.first.keyId].kind == keys[c.second.keyId].kind == Recovery
    requires keys[c.key.keyId].installId != install
    ensures !InstallationTaken(keys, install)
  {
  }

  /** From two empty stores, with any cast and any complete new key for another installation, every step of a pairing
      commits: enrollment, recovery bundle, bootstrap, request, authorization and finalization. */
  lemma PairingHappens(c: Cast, key: NewKey, install: InstallId, requestId: string)
    returns (s0: Db, s1: Db, s2: Db, t1: Db, t2: Db, t3: Db, bundle: Bundle, request: PairingRequest, package: Package)
    requires c.Valid() && |key.publicKey| == 32 && key.blob.size > 0 && install != c.install
    requires key.keyId != c.key.keyId && key.keyId != c.first.keyId && key.keyId != c.second.keyId
    ensures Enroll(EmptyDb, c.op, c.store, c.install, c.key, Some(c.first), c.events[0], 0, 0, 0) == Ok(s0)
    ensures CreateRecovery(s0, c.op, c.second, c.events[1], 0, 0, 0) == Ok((s1, bundle))
    ensures Bootstrap(EmptyDb, c.op, bundle, 0) == Ok(t1)
    ensures RequestPairing(t1, c.op, key, install, requestId, 0) == Ok((t2, request))
    ensures AuthorizePairing(s1, c.op, request, c.events[2], 0, 0, 0) == Ok((s2, package))
    ensures FinalizePairing(t2, c.op, package, 0) == Ok(t3)
  {
    hide Coherent, BundleOk, KeysAfter, Accepted, Enroll, SigningKey, Carried, CreateRecovery, Bootstrap, AuthorizePairing, FinalizePairing,
      CheckpointsOf, HeadSha, RowsAgree, EventIdUsed, UsesOnly, InstallationTaken, HasKey, Bootstrapped, CertificateBinds, ServiceRuns.Run,
      AcceptanceOrdered, StoreOf, PinsCredential;
    s0, s1, bundle := SourceReady(c);
    BootstrapExactly(s0, s1, bundle, EmptyDb, c.op, c.second, c.events[1], 0, 0, 0, 0);
    t1 := Bootstrap(EmptyDb, c.op, bundle, 0).value;
    RequestCommits(t1, s1, c.op, key, install, requestId, 0);
    RequestsExactly(t1, c.op, key, install, requestId, 0);
    var requested := RequestPairing(t1, c.op, key, install, requestId, 0).value;
    t2, request := requested.0, requested.1;
    hide RequestPairing;
    InstallationFree(KeysAfter(s1.ledger), c, install);
    AuthorizationCommitsExactly(s1, c.op, request, c.events[2], 0, 0, 0);
    var authorized := AuthorizePairing(s1, c.op, request, c.events[2], 0, 0, 0).value;
    s2, package := authorized.0, authorized.1;
    AuthorizationCarries(s1, s2, package, c.op, request, c.events[2], 0, 0, 0);
    OrderedNow(s1.pins, s2.pins);
    NoCeremonies(s1, c.op);
    FinalizationCommitsExactly(s0, s1, s1, s2, EmptyDb, t1, t2, c.op, c.second, bundle, [], key, install, requestId, request, package,
                               (c.events[1], c.events[2]), (0, 0, 0), (0, 0, 0), 0, 0, 0);
    t3 := FinalizePairing(t2, c.op, package, 0).value;
  }

  lemma NoCeremonies(db: Db, op: OperatorId)
    ensures ServiceRuns.Run(db, op, []) == db
  {
  }

  predicate AllAtZero(pins: seq<Pin>) { forall i | 0 <= i < |pins| :: pins[i].acceptedAt == 0 }

  lemma OrderedNow(a: seq<Pin>, b: seq<Pin>)
    requires AllAtZero(a) && |b| == |a| + 1 && b[..|a|] == a && b[|a|].acceptedAt == 0
    ensures AllAtZero(b) && AcceptanceOrdered(b)
  {
    assert forall i | 0 <= i < |a| :: b[i] == a[i];
  }

  /** The source, enrolled and with its bundle made, can sign, and has never seen its clock step back. */
  lemma SourceReady(c: Cast) returns (s0: Db, s1: Db, bundle: Bundle)
    requires c.Valid()
    ensures Enroll(EmptyDb, c.op, c.store, c.install, c.key, Some(c.first), c.events[0], 0, 0, 0) == Ok(s0)
    ensures CreateRecovery(s0, c.op, c.second, c.events[1], 0, 0, 0) == Ok((s1, bundle))
    ensures Coherent(s0, c.op) && Carried(s0, c.op) && Coherent(s1, c.op) && Carried(s1, c.op) && SigningKey(s1, c.op) == Ok(c.key.keyId)
    ensures KeysAfter(s1.ledger).Keys == {c.key.keyId, c.first.keyId, c.second.keyId}
    ensures KeysAfter(s1.ledger)[c.first.keyId].kind == KeysAfter(s1.ledger)[c.second.keyId].kind == Recovery
    ensures KeysAfter(s1.ledger)[c.key.keyId].installId == c.install
    ensures AcceptanceOrdered(s0.pins) && AllAtZero(s1.pins) && !EventIdUsed(s1.ledger, c.events[2])
  {
    hide Coherent, BundleOk, KeysAfter, Accepted, Enroll, SigningKey, Carried, CreateRecovery, CheckpointsOf, HeadSha, RowsAgree, EventIdUsed, UsesOnly,
      HasKey;
    s0, bundle := EnrolledMachine(c);
    EnrolledPin(c, s0);
    EnrolledKeys(c, s0);
    NotUsed(s0.ledger, [c.events[0]], c.events[1]);
    RecoveryCommitsExactly(s0, c.op, c.second, c.events[1], 0, 0, 0);
    var made := CreateRecovery(s0, c.op, c.second, c.events[1], 0, 0, 0).value;
    s1, bundle := made.0, made.1;
    AfterRecovery(c, s0, s1, bundle);
    RecoveryCarries(s0, s1, bundle, c.op, c.second, c.events[1], 0, 0, 0);
    RecoveryLeaves(s0, s1, bundle, c.op, c.second, c.events[1], 0);
    UsesOnlyGrows(s0.ledger, s1.ledger, [c.events[0]], c.events[1]);
    NotUsed(s1.ledger, [c.events[0]] + [c.events[1]], c.events[2]);
    assert s1.pins[..1][0] == s1.pins[0];
  }

  lemma EnrolledKeys(c: Cast, enrolled: Db)
    requires c.Valid() && Enroll(EmptyDb, c.op, c.store, c.install, c.key, Some(c.first), c.events[0], 0, 0, 0) == Ok(enrolled)
    ensures KeysAfter(enrolled.ledger).Keys == {c.key.keyId, c.first.keyId} && KeysAfter(enrolled.ledger)[c.key.keyId].installId == c.install
  {
    var again := EnrollmentCommits(c);
    GenesisHasKeys(c);
    hide Enroll, KeysAfter, GenesisFor;
  }
}
