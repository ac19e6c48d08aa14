/** A pairing and a restore carried through, from the bundle to the machine they end in. */
module PairingProgress {
  import opened Outcomes
  import opened AuthorityData
  import opened AuthorityLedger
  import opened LedgerHistory
  import opened AuthorityTrust
  import opened AuthorityService
  import opened ServiceRuns
  import SplitCeremonies
  import opened CarriedHistory
  import opened CeremonyRules

  /** A machine that has no authority of its own yet. */
  predicate Fresh(db: Db) { db.ledger == [] && db.keyRows == map[] && db.anchor == None && db.pins == [] }

  // ---------- pinning what a package carries ----------

  /** The items continue the anchor's checkpoint on this ledger and are not pinned yet. */
  ghost predicate Continues(db: Db, op: OperatorId, items: seq<Checkpoint>) {
    && db.anchor.Some? && !db.anchor.value.Blocked() && Accepted(db.ledger, op) && |db.ledger| > 0
    && db.anchor.value.operator == op && db.anchor.value.store == StoreOf(db.ledger) && db.anchor.value.genesisSha == db.ledger[0].sha
    && LocalRowIs(db.ledger, db.anchor.value.pinnedSequence, db.anchor.value.pinnedHead)
    && db.anchor.value.checkpointSha.Some? && Closed(items, db.anchor.value.checkpointSha)
    && (forall c | c in items :: CheckpointOk(db.ledger, op, c, 0, false) && !PinKnown(db.pins, CheckpointDigest(c)))
    && (forall c | c in items :: db.anchor.value.pinnedSequence <= c.body.sequence)
    && (forall i, j | 0 <= i < j < |items| :: items[i].body.sequence <= items[j].body.sequence && items[i] != items[j])
  }

  lemma PinNext(db: Db, op: OperatorId, items: seq<Checkpoint>, now: int)
    requires Continues(db, op, items) && items != []
    ensures PinLocal(db, items[0], now, false).Ok? && Continues(PinLocal(db, items[0], now, false).value, op, items[1..])
  {
    hide Accepted;
    var c := items[0];
    OnlyFreshnessDiffers(db.ledger, op, c, now, false);
    assert LocalRowIs(db.ledger, c.body.sequence, c.body.eventSha);
    hide CheckpointOk;
    var next := PinLocal(db, c, now, false).value;
    forall d | d in items[1..]
      ensures CheckpointOk(next.ledger, op, d, 0, false) && !PinKnown(next.pins, CheckpointDigest(d)) && c.body.sequence <= d.body.sequence
    {
      var i: nat :| i < |items[1..]| && items[1..][i] == d;
      assert items[i + 1] == d && items[0] != items[i + 1];
    }
  }

  lemma {:induction false} PinAllCommits(db: Db, op: OperatorId, items: seq<Checkpoint>, now: int)
    requires Continues(db, op, items)
    ensures PinAll(db, items, now).Ok?
    ensures var r := PinAll(db, items, now).value; Continues(r, op, []) && r.ledger == db.ledger && r.keyRows == db.keyRows && r.requests == db.requests
    decreases |items|
  {
    hide PinLocal;
    if items != [] {
      PinNext(db, op, items, now);
      PinLocalTables(db, items[0], now);
      hide Continues;
      PinAllCommits(PinLocal(db, items[0], now, false).value, op, items[1..], now);
    }
  }

  lemma PinLocalTables(db: Db, c: Checkpoint, now: int)
    requires PinLocal(db, c, now, false).Ok?
    ensures var r := PinLocal(db, c, now, false).value; r.ledger == db.ledger && r.keyRows == db.keyRows && r.requests == db.requests
  {
    hide Verifies;
  }

  // ---------- the target ----------

  /** The target's anchor after bootstrapping with a bundle, and its pins. */
  ghost predicate Bootstrapped(t: Db, s: Db, op: OperatorId) {
    && t.ledger == [] && t.keyRows == map[] && |s.ledger| > 0 && s.pins != []
    && t.anchor.Some? && !t.anchor.value.Blocked() && t.anchor.value.recoveryKey.Some?
    && t.anchor.value.operator == op && t.anchor.value.store == StoreOf(s.ledger) && t.anchor.value.genesisSha == s.ledger[0].sha
    && t.anchor.value.pinnedSequence == |s.ledger| && t.anchor.value.pinnedHead == HeadSha(s.ledger)
    && t.anchor.value.checkpointSha == Some(CheckpointDigest(s.pins[|s.pins| - 1].checkpoint))
    && |t.pins| == |s.pins| && forall i | 0 <= i < |t.pins| :: t.pins[i].sha == CheckpointDigest(s.pins[i].checkpoint)
  }

  /** A fresh target takes the bundle of a committed recovery ceremony if and only if the
      source's clock had never stepped back between two earlier pins. */
  lemma BootstrapExactly(s0: Db, s1: Db, bundle: Bundle, t0: Db, op: OperatorId, recovery: KeyBinding, eventId: string,
                         at: int, issued: int, pinnedAt: int, tBoot: int)
    requires Coherent(s0, op) && Carried(s0, op) && CreateRecovery(s0, op, recovery, eventId, at, issued, pinnedAt) == Ok((s1, bundle))
    requires Fresh(t0)
    ensures Bootstrap(t0, op, bundle, tBoot).Ok? <==> AcceptanceOrdered(s0.pins)
    ensures AcceptanceOrdered(s0.pins) ==>
      Bootstrapped(Bootstrap(t0, op, bundle, tBoot).value, s1, op) && Bootstrap(t0, op, bundle, tBoot).value.requests == t0.requests
      && PinsCredential(Bootstrap(t0, op, bundle, tBoot).value, bundle)
  {
    BundleVerifiesExactly(s0, s1, bundle, op, recovery, eventId, at, issued, pinnedAt);
    var signer := BundleContents(s0, s1, bundle, op, recovery, eventId, at, issued, pinnedAt);
    BundleSigner(s0, s1, bundle, op, recovery, eventId, at, issued, pinnedAt, signer);
    RecoveryCarries(s0, s1, bundle, op, recovery, eventId, at, issued, pinnedAt);
    RecoveryKeeps(s0, s1, bundle, op, recovery, eventId, at, issued, pinnedAt);
    AnchoredLedger(s1, op);
    AnchoredLedger(s0, op);
    assert s1.ledger[0] == s0.ledger[0];
    hide CreateRecovery, Coherent, Carried, SigningKey, AcceptanceOrdered, Accepted, KeysAfter, KeyStateSha, BundleOk, JustPinned, HistoryOf;
    if AcceptanceOrdered(s0.pins) {
      BootstrapWith(s1, bundle, t0, op, tBoot);
    }
  }

  predicate PinsCredential(t: Db, bundle: Bundle) {
    t.anchor.Some? && t.anchor.value.recoveryKey == Some(bundle.recoveryKey) && t.anchor.value.recoveryPublicKey == Some(bundle.recoveryPublicKey)
  }

  lemma BootstrapWith(s1: Db, bundle: Bundle, t0: Db, op: OperatorId, tBoot: int)
    requires Carried(s1, op) && Accepted(s1.ledger, op) && |s1.ledger| > 0 && Fresh(t0) && BundleOk(bundle) && s1.pins != []
    requires bundle.operator == op && bundle.ledger == s1.ledger && bundle.history == CheckpointsOf(s1.pins)
    requires IsActive(KeysAfter(s1.ledger), bundle.recoveryKey) && KeysAfter(s1.ledger)[bundle.recoveryKey].kind == Recovery
    requires KeysAfter(s1.ledger)[bundle.recoveryKey].publicKey == bundle.recoveryPublicKey
    ensures Bootstrap(t0, op, bundle, tBoot).Ok?
    ensures Bootstrapped(Bootstrap(t0, op, bundle, tBoot).value, s1, op) && Bootstrap(t0, op, bundle, tBoot).value.requests == t0.requests
    ensures PinsCredential(Bootstrap(t0, op, bundle, tBoot).value, bundle)
  {
    hide Carried, PinsChained, KeysAfter, Accepted, KeyStateSha, BundleOk, Closed, Distinct, CheckpointsOf, PinsOf, Establish, Bootstrapped;
    CarriedChain(s1, op);
    ChainIsClosed(s1.pins);
    DistinctHistory(s1.pins);
    var items := CheckpointsOf(s1.pins);
    var chain, last := ChainOf(s1.ledger, op, None), items[|items| - 1];
    EstablishCommits(t0, chain, bundle.recoveryKey, bundle.recoveryPublicKey, items, tBoot);
    var t1 := t0.(anchor := Some(FirstAnchor(chain, bundle.recoveryKey, bundle.recoveryPublicKey, last, tBoot)), pins := PinsOf(items, tBoot));
    assert Bootstrap(t0, op, bundle, tBoot) == Ok(t1);
    hide Bootstrap;
    FirstIsBootstrapped(t1, s1, op, bundle.recoveryKey, bundle.recoveryPublicKey, tBoot);
  }

  lemma FirstIsBootstrapped(t1: Db, s1: Db, op: OperatorId, recoveryKey: KeyId, recoveryPublicKey: Bytes, tBoot: int)
    requires |s1.ledger| > 0 && s1.pins != [] && t1.ledger == [] && t1.keyRows == map[]
    requires t1.pins == PinsOf(CheckpointsOf(s1.pins), tBoot)
    requires var history := CheckpointsOf(s1.pins);
      t1.anchor == Some(FirstAnchor(ChainOf(s1.ledger, op, None), recoveryKey, recoveryPublicKey, history[|history| - 1], tBoot))
    ensures Bootstrapped(t1, s1, op)
  {
    hide KeysAfter, KeyStateSha;
  }

  lemma EstablishCommits(db: Db, chain: Chain, recoveryKey: KeyId, recoveryPublicKey: Bytes, items: seq<Checkpoint>, now: int)
    requires db.anchor == None && db.pins == [] && items != [] && Closed(items, None) && Distinct(items)
    requires RecoveryInChain(chain.keys, Some(recoveryKey), Some(recoveryPublicKey))
    ensures var last := items[|items| - 1];
      Establish(db, chain, Some(recoveryKey), Some(recoveryPublicKey), Some(last), items, now) ==
        Ok(db.(anchor := Some(FirstAnchor(chain, recoveryKey, recoveryPublicKey, last, now)), pins := PinsOf(items, now)))
  {
    hide Closed, Distinct, RecoveryInChain, FirstHistory, PinsOf;
    var last := items[|items| - 1];
    assert FirstHistory(Some(last), items) == items by { FirstIsHistory(Some(last), items); }
    assert forall p | p in db.pins :: p.checkpoint !in items;
    assert db.pins + PinsOf(items, now) == PinsOf(items, now);
  }

  function FirstAnchor(chain: Chain, recoveryKey: KeyId, recoveryPublicKey: Bytes, last: Checkpoint, now: int): Anchor {
    Anchor(chain.operator, chain.store, chain.genesisSha, Some(recoveryKey), Some(recoveryPublicKey), chain.headSequence, chain.headSha,
           chain.keyStateSha, Some(CheckpointDigest(last)), Some(last), Some(last.body.certificate), now, None)
  }

  lemma FirstIsHistory(checkpoint: Option<Checkpoint>, history: seq<Checkpoint>)
    requires history != []
    ensures FirstHistory(checkpoint, history) == history
  {
  }

  lemma DistinctHistory(pins: seq<Pin>)
    requires PinsChained(pins)
    ensures Distinct(CheckpointsOf(pins))
  {
    var history := CheckpointsOf(pins);
    forall i, j | 0 <= i < j < |history|
      ensures history[i] != history[j]
    {
      if history[i] == history[j] {
        ChainIsDistinct(pins, i, j);
      }
    }
  }

  /** A bootstrapped target's request is committed; it asks for the next row of the bundle's ledger. */
  lemma RequestCommits(t1: Db, s1: Db, op: OperatorId, key: NewKey, install: InstallId, requestId: string, at: int)
    requires Bootstrapped(t1, s1, op) && requestId !in t1.requests
    ensures RequestPairing(t1, op, key, install, requestId, at).Ok?
    ensures var r := RequestPairing(t1, op, key, install, requestId, at).value;
      && Bootstrapped(r.0, s1, op) && requestId in r.0.requests && r.0.requests[requestId] == PendingRequest(r.1, false)
      && r.1.requestId == requestId && r.1.expectedSequence == |s1.ledger| + 1 && r.1.store == StoreOf(s1.ledger)
  {
  }

  // ---------- the whole pairing ----------

  lemma {:induction false} IndexOfChain(pins: seq<Pin>, k: nat, from: nat)
    requires PinsChained(pins) && from <= k < |pins|
    ensures IndexOf(CheckpointsOf(pins)[from..], CheckpointDigest(pins[k].checkpoint)) == Some(k - from)
    decreases k - from
  {
    var history := CheckpointsOf(pins)[from..];
    assert history[0] == pins[from].checkpoint;
    if from < k {
      if pins[from].checkpoint == pins[k].checkpoint {
        ChainIsDistinct(pins, from, k);
      }
      assert history[1..] == CheckpointsOf(pins)[from + 1..];
      IndexOfChain(pins, k, from + 1);
    }
  }

  /** The checkpoints the source has pinned since the bundle continue the target's own. */
  lemma SourceContinues(t: Db, s1: Db, s3: Db, op: OperatorId, ledgered: Db)
    requires Bootstrapped(t, s1, op) && Carried(s3, op) && Accepted(s3.ledger, op) && s1.ledger <= s3.ledger
    requires |s1.pins| < |s3.pins| && s3.pins[..|s1.pins|] == s1.pins && s1.pins[|s1.pins| - 1].checkpoint.body.sequence == |s1.ledger|
    requires ledgered == t.(ledger := s3.ledger)
    ensures Continues(ledgered, op, CheckpointsOf(s3.pins)[|s1.pins|..])
  {
    hide Accepted, CheckpointOk, Carried, PinsChained, Closed, CheckpointsOf, PinKnown;
    var n := |s1.pins|;
    var items := CheckpointsOf(s3.pins)[n..];
    assert s3.ledger[0] == s1.ledger[0] && s3.pins[n - 1] == s1.pins[n - 1];
    assert StoreOf(s3.ledger) == StoreOf(s1.ledger);
    CarriedChain(s3, op);
    ItemsClosed(s3.pins, n);
    ItemsOrdered(s3, op, n);
    forall c | c in items
      ensures CheckpointOk(s3.ledger, op, c, 0, false) && !PinKnown(t.pins, CheckpointDigest(c)) && |s1.ledger| <= c.body.sequence
    {
      LaterPin(t, s3, op, n, c);
    }
  }

  lemma LaterPin(t: Db, s3: Db, op: OperatorId, n: nat, c: Checkpoint)
    requires Carried(s3, op) && PinsChained(s3.pins) && 0 < n == |t.pins| < |s3.pins| && c in CheckpointsOf(s3.pins)[n..]
    requires forall k | 0 <= k < n :: t.pins[k].sha == CheckpointDigest(s3.pins[k].checkpoint)
    ensures CheckpointOk(s3.ledger, op, c, 0, false) && !PinKnown(t.pins, CheckpointDigest(c))
    ensures s3.pins[n - 1].checkpoint.body.sequence <= c.body.sequence
  {
    hide Carried, CheckpointOk, PinsChained;
    var items := CheckpointsOf(s3.pins)[n..];
    var i: nat :| i < |items| && items[i] == c;
    assert c == s3.pins[n + i].checkpoint;
    PinIsOk(s3, op, c) by { assert CheckpointsOf(s3.pins)[n + i] == c; }
    hide CheckpointsOf;
    PinsInOrder(s3, op, n - 1, n + i);
    NotKnownYet(t, s3.pins, n, n + i);
  }

  lemma NotKnownYet(t: Db, pins: seq<Pin>, n: nat, i: nat)
    requires PinsChained(pins) && n == |t.pins| <= i < |pins|
    requires forall k | 0 <= k < n :: t.pins[k].sha == CheckpointDigest(pins[k].checkpoint)
    ensures !PinKnown(t.pins, CheckpointDigest(pins[i].checkpoint))
  {
    hide PinsChained;
    forall k | 0 <= k < n
      ensures t.pins[k].sha != CheckpointDigest(pins[i].checkpoint)
    {
      if pins[k].checkpoint == pins[i].checkpoint {
        ChainIsDistinct(pins, k, i);
      }
    }
  }

  lemma PinsInOrder(db: Db, op: OperatorId, i: nat, j: nat)
    requires Carried(db, op) && i < j < |db.pins|
    ensures db.pins[i].checkpoint.body.sequence <= db.pins[j].checkpoint.body.sequence
  {
    hide CheckpointOk, PinsChained, DistinctEventIds, RowsOfStore;
  }

  lemma ItemsOrdered(s3: Db, op: OperatorId, n: nat)
    requires Carried(s3, op) && PinsChained(s3.pins) && n < |s3.pins|
    ensures var items := CheckpointsOf(s3.pins)[n..];
      forall i, j | 0 <= i < j < |items| :: items[i].body.sequence <= items[j].body.sequence && items[i] != items[j]
  {
    hide Carried, PinsChained;
    var items := CheckpointsOf(s3.pins)[n..];
    forall i, j | 0 <= i < j < |items|
      ensures items[i].body.sequence <= items[j].body.sequence && items[i] != items[j]
    {
      PinsInOrder(s3, op, n + i, n + j);
      if items[i] == items[j] {
        ChainIsDistinct(s3.pins, n + i, n + j);
      }
    }
  }

  lemma ItemsClosed(pins: seq<Pin>, n: nat)
    requires PinsChained(pins) && 0 < n <= |pins|
    ensures Closed(CheckpointsOf(pins)[n..], Some(CheckpointDigest(pins[n - 1].checkpoint)))
  {
    var items, prior := CheckpointsOf(pins)[n..], Some(CheckpointDigest(pins[n - 1].checkpoint));
    ClosedIsChained(items, prior);
    forall i | 0 <= i < |items|
      ensures FollowsAt(items, prior, i)
    {
      assert ChainedAt(pins, n + i);
    }
  }

  /** The tables after the target has pinned what it was brought: the new key can be taken into use. */
  lemma KeyTakenIntoUse(pinned: Db, op: OperatorId, request: PairingRequest, certificate: Row, now: int)
    requires Continues(pinned, op, []) && pinned.keyRows == map[]
    ensures InsertKeyRow(pinned, request.binding.keyId, KeyRowFor(request, certificate.sequence)).Ok?
    ensures ReplayAndAdvance(InsertKeyRow(pinned, request.binding.keyId, KeyRowFor(request, certificate.sequence)).value, op, now).Ok?
  {
    hide Accepted, KeysAfter, KeyStateSha;
  }

  lemma CarryCommits(t: Db, s1: Db, s3: Db, op: OperatorId, package: Package, now: int)
    requires Bootstrapped(t, s1, op) && Carried(s3, op) && Accepted(s3.ledger, op) && s1.ledger <= s3.ledger
    requires |s1.pins| < |s3.pins| && s3.pins[..|s1.pins|] == s1.pins && s1.pins[|s1.pins| - 1].checkpoint.body.sequence == |s1.ledger|
    requires package.transport.ledger == s3.ledger && package.transport.history == CheckpointsOf(s3.pins)
    requires |s3.ledger| > 0 && package.certificateSha == HeadSha(s3.ledger) && CertificateBinds(s3.ledger[|s3.ledger| - 1], package.request)
    ensures CarryPackage(t, op, package, t.anchor.value.checkpointSha.value, now).Ok?
  {
    hide Carried, Accepted, Continues, PinsChained, CertificateBinds, ReplayAndAdvance, InsertKeyRow, DistinctEventIds, CheckpointsOf, PinAll, IndexOf,
      RowWithSha, HeadSha, Bootstrapped;
    BootstrapFacts(t, s1, op);
    var n := |s1.pins|;
    var ledgered := t.(ledger := s3.ledger);
    CarriedChain(s3, op);
    IdsAreDistinct(s3, op);
    KnownIsFound(s1, s3);
    SourceContinues(t, s1, s3, op, ledgered);
    var items := CheckpointsOf(s3.pins)[n..];
    PinAllCommits(ledgered, op, items, now);
    var certificate := s3.ledger[|s3.ledger| - 1];
    HeadRow(s3.ledger);
    KeyTakenIntoUse(PinAll(ledgered, items, now).value, op, package.request, certificate, now);
  }

  lemma BootstrapFacts(t: Db, s: Db, op: OperatorId)
    requires Bootstrapped(t, s, op)
    ensures t.ledger == [] && t.keyRows == map[] && t.anchor.Some? && s.pins != []
    ensures t.anchor.value.checkpointSha == Some(CheckpointDigest(s.pins[|s.pins| - 1].checkpoint))
  {
  }

  lemma KnownIsFound(s1: Db, s3: Db)
    requires PinsChained(s3.pins) && 0 < |s1.pins| <= |s3.pins| && s3.pins[..|s1.pins|] == s1.pins
    ensures IndexOf(CheckpointsOf(s3.pins), CheckpointDigest(s1.pins[|s1.pins| - 1].checkpoint)) == Some(|s1.pins| - 1)
  {
    hide PinsChained, IndexOf, CheckpointsOf;
    IndexOfChain(s3.pins, |s1.pins| - 1, 0);
    assert CheckpointsOf(s3.pins)[0..] == CheckpointsOf(s3.pins) && s3.pins[|s1.pins| - 1] == s1.pins[|s1.pins| - 1];
  }

  lemma HeadRow(rows: seq<Row>)
    requires |rows| > 0
    ensures RowWithSha(rows, HeadSha(rows)) == Some(rows[|rows| - 1])
  {
  }

  lemma IdsAreDistinct(db: Db, op: OperatorId)
    requires Carried(db, op)
    ensures DistinctEventIds(db.ledger)
  {
    hide DistinctEventIds, PinsVerify, PinsChained;
  }

  /** Pairing goes through: a fresh target bootstraps with the bundle of a recovery ceremony
      and makes a request; the source, after whatever ceremonies, commits the
      authorization. Then the target's finalization commits if and only if the source's
      clock never stepped back between two pins and the package is still in its window. */
  lemma FinalizationCommitsExactly(s0: Db, s1: Db, s2: Db, s3: Db, t0: Db, t1: Db, t2: Db, op: OperatorId,
                                   recovery: KeyBinding, bundle: Bundle, ceremonies: seq<Ceremony>, key: NewKey, install: InstallId,
                                   requestId: string, request: PairingRequest, package: Package, ids: (string, string),
                                   b: (int, int, int), a: (int, int, int), tBoot: int, tReq: int, now: int)
    requires Coherent(s0, op) && Carried(s0, op) && Fresh(t0) && requestId !in t0.requests
    requires CreateRecovery(s0, op, recovery, ids.0, b.0, b.1, b.2) == Ok((s1, bundle))
    requires Bootstrap(t0, op, bundle, tBoot) == Ok(t1)
    requires RequestPairing(t1, op, key, install, requestId, tReq) == Ok((t2, request))
    requires s2 == ServiceRuns.Run(s1, op, ceremonies)
    requires AuthorizePairing(s2, op, request, ids.1, a.0, a.1, a.2) == Ok((s3, package))
    ensures FinalizePairing(t2, op, package, now).Ok? <==> AcceptanceOrdered(s3.pins) && a.1 <= now < a.1 + DAY_SECONDS * SECOND
  {
    hide CreateRecovery, Bootstrap, RequestPairing, AuthorizePairing, ServiceRuns.Run, Coherent, Carried, Accepted, AcceptanceOrdered, TransportOk,
      CarryPackage, Bootstrapped, CertificateBinds, KeyRequested, HeadSha;
    RecoveryKeeps(s0, s1, bundle, op, recovery, ids.0, b.0, b.1, b.2);
    RecoveryCarries(s0, s1, bundle, op, recovery, ids.0, b.0, b.1, b.2);
    BootstrapExactly(s0, s1, bundle, t0, op, recovery, ids.0, b.0, b.1, b.2, tBoot);
    RequestCommits(t1, s1, op, key, install, requestId, tReq);
    RunCarries(s1, op, ceremonies);
    PackageVerifiesExactly(s2, s3, package, op, request, ids.1, a.0, a.1, a.2, now);
    if AcceptanceOrdered(s3.pins) && a.1 <= now < a.1 + DAY_SECONDS * SECOND {
      AuthorizedCommits(s1, s2, s3, t2, op, request, package, ids.1, a, now);
    }
  }

  lemma AuthorizedCommits(s1: Db, s2: Db, s3: Db, t2: Db, op: OperatorId, request: PairingRequest, package: Package, eventId: string,
                          a: (int, int, int), now: int)
    requires Coherent(s2, op) && Carried(s2, op) && AuthorizePairing(s2, op, request, eventId, a.0, a.1, a.2) == Ok((s3, package))
    requires Bootstrapped(t2, s1, op) && s1.ledger <= s2.ledger && 0 < |s1.pins| <= |s2.pins| && s2.pins[..|s1.pins|] == s1.pins
    requires s1.pins[|s1.pins| - 1].checkpoint.body.sequence == |s1.ledger| > 0
    requires request.requestId in t2.requests && t2.requests[request.requestId] == PendingRequest(request, false)
    requires AcceptanceOrdered(s3.pins) && TransportOk(package.transport, now)
    ensures FinalizePairing(t2, op, package, now).Ok?
  {
    hide AuthorizePairing, Accepted, AcceptanceOrdered, TransportOk, CarryPackage, CertificateBinds, KeyRequested, Carried, Coherent;
    AuthorizationCarries(s2, s3, package, op, request, eventId, a.0, a.1, a.2);
    AuthorizeKeeps(s2, s3, package, op, request, eventId, a.0, a.1, a.2);
    SplitCeremonies.CoherentLedger(s3, op);
    CarriedChain(s3, op);
    HistoryClosedExactly(s3.pins);
    hide HistoryOf, PinsChained;
    assert s3.ledger[0] == s1.ledger[0];
    CarryCommits(t2, s1, s3, op, package, now);
  }

  // ---------- the whole restore ----------

  /** The installation is free for a new key, the one it replaces, if any, having one active key that retires. */
  predicate Free(keys: KeyMap, replaced: Option<InstallId>, install: InstallId) {
    match replaced
    case None => !InstallationTaken(keys, install)
    case Some(former) => |ActiveOn(keys, former)| == 1 && (install == former || !InstallationTaken(keys, install))
  }

  lemma FreeAfterRetiring(keys: KeyMap, former: InstallId, install: InstallId, at: int)
    ensures InstallationTaken(Retire(keys, ActiveOn(keys, former), at), install) <==> install != former && InstallationTaken(keys, install)
  {
    var after := Retire(keys, ActiveOn(keys, former), at);
    if InstallationTaken(keys, install) && install != former {
      var id :| id in keys && keys[id].kind == Installation && keys[id].installId == install && keys[id].status == Active;
      assert id in after && after[id] == keys[id];
    }
  }

  /** The row a restore signs is accepted exactly when the recovery key is still active and
      the new certificate is complete, new and on a free installation. */
  lemma RestoreAccepted(rows: seq<Row>, op: OperatorId, bundle: Bundle, transport: Transport, replaced: Option<InstallId>, key: NewKey,
                        install: InstallId, eventId: string, at: int)
    requires Accepted(rows, op) && |rows| > 0 && transport.ledger == rows && bundle.operator == op && bundle.store == StoreOf(rows)
    requires bundle.recoveryKey in KeysAfter(rows) && KeysAfter(rows)[bundle.recoveryKey].publicKey == bundle.recoveryPublicKey
    ensures Accepted(rows + [RestoreRow(op, bundle, transport, replaced, key, install, eventId, at)], op) <==>
      && IsActive(KeysAfter(rows), bundle.recoveryKey) && |key.publicKey| == 32 && key.blob.size > 0
      && key.keyId !in KeysAfter(rows) && Free(KeysAfter(rows), replaced, install)
  {
    hide Accepted, KeysAfter, Admissible, RestoreDetails, Free;
    NextAcceptedExactly(rows, op, eventId, if replaced.Some? then InstallationRebound else InstallationPaired, install, key.keyId,
                        bundle.recoveryKey, bundle.recoveryPublicKey, RestoreDetails(bundle, transport, replaced, key, install), at);
    if replaced.Some? {
      ReplaceAdmissible(KeysAfter(rows), op, bundle, transport, replaced, key, install, eventId, at);
    } else {
      JoinAdmissible(KeysAfter(rows), op, bundle, transport, replaced, key, install, eventId, at);
    }
  }

  lemma JoinAdmissible(keys: KeyMap, op: OperatorId, bundle: Bundle, transport: Transport, replaced: Option<InstallId>, key: NewKey,
                       install: InstallId, eventId: string, at: int)
    requires |transport.ledger| > 0 && bundle.operator == op && replaced == None
    ensures Admissible(keys, NextEvent(transport.ledger, eventId, InstallationPaired, op, install, key.keyId, bundle.recoveryKey,
                                       RestoreDetails(bundle, transport, replaced, key, install), at), op, bundle.store) <==>
      |key.publicKey| == 32 && key.blob.size > 0 && key.keyId !in keys && Free(keys, replaced, install)
  {
    hide InstallationTaken, ActiveOn, Retire;
  }

  lemma ReplaceAdmissible(keys: KeyMap, op: OperatorId, bundle: Bundle, transport: Transport, replaced: Option<InstallId>, key: NewKey,
                          install: InstallId, eventId: string, at: int)
    requires |transport.ledger| > 0 && bundle.operator == op && replaced.Some?
    ensures Admissible(keys, NextEvent(transport.ledger, eventId, InstallationRebound, op, install, key.keyId, bundle.recoveryKey,
                                       RestoreDetails(bundle, transport, replaced, key, install), at), op, bundle.store) <==>
      |key.publicKey| == 32 && key.blob.size > 0 && key.keyId !in keys && Free(keys, replaced, install)
  {
    FreeAfterRetiring(keys, replaced.value, install, at);
    hide InstallationTaken, ActiveOn, Retire;
  }

  /** What the source has pinned since the bundle also continues the target's own pins with one more row on the ledger. */
  lemma RestoredContinues(t: Db, s1: Db, s3: Db, op: OperatorId, row: Row, keyed: Db)
    requires Bootstrapped(t, s1, op) && Carried(s3, op) && Accepted(s3.ledger, op) && s1.ledger <= s3.ledger
    requires |s1.pins| <= |s3.pins| && s3.pins[..|s1.pins|] == s1.pins && s1.pins[|s1.pins| - 1].checkpoint.body.sequence == |s1.ledger|
    requires keyed.ledger == s3.ledger + [row] && keyed.anchor == t.anchor && keyed.pins == t.pins && Accepted(keyed.ledger, op)
    ensures Continues(keyed, op, CheckpointsOf(s3.pins)[|s1.pins|..])
  {
    hide Accepted, CheckpointOk, Carried, PinsChained, Closed, CheckpointsOf, PinKnown;
    var n := |s1.pins|;
    var items := CheckpointsOf(s3.pins)[n..];
    assert s3.ledger[0] == s1.ledger[0] && s3.pins[n - 1] == s1.pins[n - 1] && keyed.ledger[0] == s1.ledger[0];
    assert StoreOf(keyed.ledger) == StoreOf(s1.ledger);
    CarriedChain(s3, op);
    ItemsClosed(s3.pins, n);
    forall c | c in items
      ensures CheckpointOk(keyed.ledger, op, c, 0, false) && !PinKnown(t.pins, CheckpointDigest(c)) && |s1.ledger| <= c.body.sequence
    {
      LaterPin(t, s3, op, n, c);
      CheckpointStays(s3.ledger, keyed.ledger, op, c, 0, 0, false);
    }
    if n < |s3.pins| {
      ItemsOrdered(s3, op, n);
    }
  }

  /** Everything a restore checks, given a target bootstrapped with the bundle and a transport of the same source. */
  lemma RestoreSteps(t: Db, s1: Db, s3: Db, op: OperatorId, bundle: Bundle, transport: Transport, replaced: Option<InstallId>, key: NewKey,
                     install: InstallId, eventId: string, at: int, now: int)
    requires Bootstrapped(t, s1, op) && Carried(s3, op) && Accepted(s3.ledger, op) && s1.ledger <= s3.ledger && |s1.ledger| > 0
    requires 0 < |s1.pins| <= |s3.pins| && s3.pins[..|s1.pins|] == s1.pins && s1.pins[|s1.pins| - 1].checkpoint.body.sequence == |s1.ledger|
    requires transport.ledger == s3.ledger && transport.history == CheckpointsOf(s3.pins)
    requires BundleOk(bundle) && TransportOk(transport, now) && RecoveryTrusted(t, op, bundle, transport)
    requires bundle.history == CheckpointsOf(s1.pins) && bundle.operator == op && bundle.store == StoreOf(s1.ledger)
    requires Accepted(s3.ledger + [RestoreRow(op, bundle, transport, replaced, key, install, eventId, at)], op) && !EventIdUsed(s3.ledger, eventId)
    ensures Recover(t, op, bundle, transport, replaced, key, install, eventId, at, now).Ok?
  {
    hide Carried, Accepted, Continues, PinsChained, BundleOk, TransportOk, RecoveryTrusted, DistinctEventIds, PinAll, IndexOf, Bootstrapped,
      EventIdUsed, RestoreDetails, SignedRow, CheckpointsOf;
    BootstrapFacts(t, s1, op);
    var n := |s1.pins|;
    var row := RestoreRow(op, bundle, transport, replaced, key, install, eventId, at);
    var keyed := t.(ledger := s3.ledger + [row],
                    keyRows := map[key.keyId := KeyRow(install, bundle.store, key.publicKey, Active, |s3.ledger| + 1, key.blob)]);
    CarriedChain(s3, op);
    IdsAreDistinct(s3, op);
    KnownIsFound(s1, s3);
    LastCheckpoint(s1.pins);
    RestoredContinues(t, s1, s3, op, row, keyed);
    PinAllCommits(keyed, op, CheckpointsOf(s3.pins)[n..], now);
    ContinuesHasAnchor(PinAll(keyed, CheckpointsOf(s3.pins)[n..], now).value, op);
    assert keyed.ledger[0] == s1.ledger[0];
    hide KeysAfter, KeyStateSha;
    assert AppendEvent(t.(ledger := s3.ledger), eventId, if replaced.Some? then InstallationRebound else InstallationPaired, op,
                       install, key.keyId, bundle.recoveryKey, bundle.recoveryPublicKey,
                       RestoreDetails(bundle, transport, replaced, key, install), at) == Ok(t.(ledger := s3.ledger + [row]));
    hide AppendEvent;
  }

  lemma LastCheckpoint(pins: seq<Pin>)
    requires pins != []
    ensures var history := CheckpointsOf(pins); history[|history| - 1] == pins[|pins| - 1].checkpoint
  {
  }

  lemma ContinuesHasAnchor(db: Db, op: OperatorId)
    requires Continues(db, op, [])
    ensures db.anchor.Some?
  {
    hide Accepted;
  }

  /** A restore goes through: a fresh target bootstraps with the bundle of a recovery ceremony;
      after whatever ceremonies the source exports its ledger and history. The restore
      then commits if and only if the source's clock never stepped back between two
      pins, its last checkpoint is fresh, the recovery key is still active, and the new
      key is complete, new and on a free installation. */
  lemma RestoreCommitsExactly(s0: Db, s1: Db, s3: Db, t0: Db, t1: Db, op: OperatorId, recovery: KeyBinding, bundle: Bundle, ceremonies: seq<Ceremony>,
                              transport: Transport, replaced: Option<InstallId>, key: NewKey, install: InstallId, ids: (string, string),
                              b: (int, int, int), tBoot: int, at: int, now: int)
    requires Coherent(s0, op) && Carried(s0, op) && Fresh(t0)
    requires CreateRecovery(s0, op, recovery, ids.0, b.0, b.1, b.2) == Ok((s1, bundle)) && Bootstrap(t0, op, bundle, tBoot) == Ok(t1)
    requires s3 == ServiceRuns.Run(s1, op, ceremonies)
    requires |s3.ledger| > 0 && s3.anchor.Some? && s3.anchor.value.checkpoint.Some? && transport == TransportFrom(s3, op, StoreOf(s3.ledger))
    ensures Recover(t1, op, bundle, transport, replaced, key, install, ids.1, at, now).Ok? <==>
      && AcceptanceOrdered(s3.pins) && FreshAt(s3.anchor.value.checkpoint.value.body, now)
      && IsActive(KeysAfter(s3.ledger), recovery.keyId) && !EventIdUsed(s3.ledger, ids.1)
      && |key.publicKey| == 32 && key.blob.size > 0 && key.keyId !in KeysAfter(s3.ledger) && Free(KeysAfter(s3.ledger), replaced, install)
  {
    hide CreateRecovery, Bootstrap, ServiceRuns.Run, Coherent, Carried, Accepted, AcceptanceOrdered, TransportOk, Bootstrapped, HeadSha, KeysAfter,
      BundleOk, RecoveryTrusted, Free, EventIdUsed, TransportFrom, RestoreRow, Recover, SigningKey, CheckpointsOf;
    RecoveryKeeps(s0, s1, bundle, op, recovery, ids.0, b.0, b.1, b.2);
    RecoveryCarries(s0, s1, bundle, op, recovery, ids.0, b.0, b.1, b.2);
    BundleVerifiesExactly(s0, s1, bundle, op, recovery, ids.0, b.0, b.1, b.2);
    BootstrapExactly(s0, s1, bundle, t0, op, recovery, ids.0, b.0, b.1, b.2, tBoot);
    var signer := BundleContents(s0, s1, bundle, op, recovery, ids.0, b.0, b.1, b.2);
    BundleSigner(s0, s1, bundle, op, recovery, ids.0, b.0, b.1, b.2, signer);
    RunCarries(s1, op, ceremonies);
    SplitCeremonies.CoherentLedger(s3, op);
    SplitCeremonies.CoherentLedger(s1, op);
    SplitCeremonies.CoherentLedger(s0, op);
    CarriedChain(s3, op);
    RestoreGiven(t1, s1, s3, op, bundle, transport, replaced, key, install, ids.1, at, now);
  }

  /** The same, from what the ceremonies have established. */
  lemma RestoreGiven(t: Db, s1: Db, s3: Db, op: OperatorId, bundle: Bundle, transport: Transport, replaced: Option<InstallId>, key: NewKey,
                     install: InstallId, eventId: string, at: int, now: int)
    requires Bootstrapped(t, s1, op) && Carried(s3, op) && Accepted(s3.ledger, op) && Accepted(s1.ledger, op) && s1.ledger <= s3.ledger && |s1.ledger| > 0
    requires 0 < |s1.pins| <= |s3.pins| && s3.pins[..|s1.pins|] == s1.pins && s1.pins[|s1.pins| - 1].checkpoint.body.sequence == |s1.ledger|
    requires s3.anchor.Some? && s3.anchor.value.checkpoint.Some? && transport == TransportFrom(s3, op, StoreOf(s3.ledger))
    requires BundleOk(bundle) && bundle.history == CheckpointsOf(s1.pins) && bundle.operator == op && bundle.store == StoreOf(s1.ledger)
    requires bundle.genesisSha == s1.ledger[0].sha && t.anchor.Some?
    requires t.anchor.value.recoveryKey == Some(bundle.recoveryKey) && t.anchor.value.recoveryPublicKey == Some(bundle.recoveryPublicKey)
    requires bundle.recoveryKey in KeysAfter(s1.ledger) && KeysAfter(s1.ledger)[bundle.recoveryKey].kind == Recovery
    requires KeysAfter(s1.ledger)[bundle.recoveryKey].publicKey == bundle.recoveryPublicKey
    ensures Recover(t, op, bundle, transport, replaced, key, install, eventId, at, now).Ok? <==>
      && AcceptanceOrdered(s3.pins) && FreshAt(s3.anchor.value.checkpoint.value.body, now)
      && IsActive(KeysAfter(s3.ledger), bundle.recoveryKey) && !EventIdUsed(s3.ledger, eventId)
      && |key.publicKey| == 32 && key.blob.size > 0 && key.keyId !in KeysAfter(s3.ledger) && Free(KeysAfter(s3.ledger), replaced, install)
  {
    hide Carried, Accepted, AcceptanceOrdered, TransportOk, Bootstrapped, KeysAfter, BundleOk, RecoveryTrusted, Free, EventIdUsed, RestoreRow,
      CheckpointsOf, HistoryOf, PinsChained, Recover;
    assert s3.ledger[0] == s1.ledger[0];
    CarriedAtLast(s3, op);
    TransportOkExactly(s3, op, transport, now);
    RecoveryKeyStays(s1, s3, op, bundle.recoveryKey);
    RestoreAccepted(s3.ledger, op, bundle, transport, replaced, key, install, eventId, at);
    HistoryClosedExactly(s3.pins);
    TrustedExactly(t, s1, s3, op, bundle, transport);
    if Recover(t, op, bundle, transport, replaced, key, install, eventId, at, now).Ok? {
      RecoverNeeds(t, op, bundle, transport, replaced, key, install, eventId, at, now);
    }
    if TransportOk(transport, now) && RecoveryTrusted(t, op, bundle, transport) && !EventIdUsed(s3.ledger, eventId)
       && Accepted(s3.ledger + [RestoreRow(op, bundle, transport, replaced, key, install, eventId, at)], op) {
      RestoreSteps(t, s1, s3, op, bundle, transport, replaced, key, install, eventId, at, now);
    }
  }

  lemma RecoverNeeds(t: Db, op: OperatorId, bundle: Bundle, transport: Transport, replaced: Option<InstallId>, key: NewKey, install: InstallId,
                     eventId: string, at: int, now: int)
    requires Recover(t, op, bundle, transport, replaced, key, install, eventId, at, now).Ok? && |transport.ledger| > 0
    ensures TransportOk(transport, now) && RecoveryTrusted(t, op, bundle, transport) && !EventIdUsed(transport.ledger, eventId)
    ensures Accepted(transport.ledger + [RestoreRow(op, bundle, transport, replaced, key, install, eventId, at)], op)
  {
    hide TransportOk, RecoveryTrusted, EventIdUsed, Accepted, BundleOk, PinAll, KeysAfter, KeyStateSha, RestoreDetails, SignedRow, DistinctEventIds;
  }

  lemma CarriedAtLast(db: Db, op: OperatorId)
    requires Carried(db, op)
    ensures db.pins != [] && |db.ledger| > 0 && PinsChained(db.pins) && db.anchor.Some?
    ensures db.anchor.value.checkpoint == Some(db.pins[|db.pins| - 1].checkpoint)
  {
    hide PinsVerify, PinsChained, DistinctEventIds, RowsOfStore;
  }

  lemma RecoveryKeyStays(s1: Db, s3: Db, op: OperatorId, id: KeyId)
    requires Accepted(s1.ledger, op) && Accepted(s3.ledger, op) && s1.ledger <= s3.ledger && |s1.ledger| > 0 && id in KeysAfter(s1.ledger)
    ensures id in KeysAfter(s3.ledger) && SameCertificate(KeysAfter(s1.ledger)[id], KeysAfter(s3.ledger)[id])
  {
    hide Accepted, KeysAfter;
    KeysPersist(s3.ledger, |s1.ledger|, |s3.ledger|, op);
    assert s3.ledger[..|s1.ledger|] == s1.ledger && s3.ledger[..|s3.ledger|] == s3.ledger;
  }

  /** The credential is trusted exactly while its key is active on the source. */
  lemma TrustedExactly(t: Db, s1: Db, s3: Db, op: OperatorId, bundle: Bundle, transport: Transport)
    requires Bootstrapped(t, s1, op) && |s3.ledger| > 0 && |s1.ledger| > 0 && s3.ledger[0] == s1.ledger[0] && s1.pins != []
    requires s3.anchor.Some? && s3.anchor.value.checkpoint.Some? && transport == TransportFrom(s3, op, StoreOf(s3.ledger))
    requires bundle.history == CheckpointsOf(s1.pins) && bundle.operator == op && bundle.store == StoreOf(s1.ledger) && bundle.genesisSha == s1.ledger[0].sha
    requires t.anchor.value.recoveryKey == Some(bundle.recoveryKey) && t.anchor.value.recoveryPublicKey == Some(bundle.recoveryPublicKey)
    requires bundle.recoveryKey in KeysAfter(s3.ledger) && KeysAfter(s3.ledger)[bundle.recoveryKey].kind == Recovery
    requires KeysAfter(s3.ledger)[bundle.recoveryKey].publicKey == bundle.recoveryPublicKey
    ensures RecoveryTrusted(t, op, bundle, transport) <==> IsActive(KeysAfter(s3.ledger), bundle.recoveryKey)
  {
    LastCheckpoint(s1.pins);
    hide KeysAfter, CheckpointsOf, HistoryOf;
  }

  // ---------- what is refused ----------

  /** A target that has an anchor already takes a bundle exactly when it is good, of this operator, and names
      the very domain and credential pinned; nothing changes. */
  lemma BootstrapsAgainExactly(db: Db, op: OperatorId, bundle: Bundle, now: int)
    requires db.anchor.Some?
    ensures Bootstrap(db, op, bundle, now).Ok? <==>
      && BundleOk(bundle) && bundle.operator == op && db.ledger == []
      && db.anchor.value.operator == op && db.anchor.value.store == bundle.store && db.anchor.value.genesisSha == bundle.genesisSha
      && db.anchor.value.recoveryKey == Some(bundle.recoveryKey) && db.anchor.value.recoveryPublicKey == Some(bundle.recoveryPublicKey)
    ensures Bootstrap(db, op, bundle, now).Ok? ==> Bootstrap(db, op, bundle, now).value == db
  {
    hide BundleOk, Establish;
  }

  /** A request is made exactly on a machine without a ledger that trusts a recovery key; it asks for the row
      after the pin, for a day, for exactly the new key. */
  lemma RequestsExactly(db: Db, op: OperatorId, key: NewKey, install: InstallId, requestId: string, at: int)
    ensures RequestPairing(db, op, key, install, requestId, at).Ok? <==>
      && db.ledger == [] && requestId !in db.requests && db.anchor.Some? && db.anchor.value.blockReason == None && db.anchor.value.recoveryKey.Some?
    ensures RequestPairing(db, op, key, install, requestId, at).Ok? ==>
      var r := RequestPairing(db, op, key, install, requestId, at).value; var q := r.1;
      && r.0 == db.(requests := db.requests[requestId := PendingRequest(q, false)])
      && q.requestId == requestId && q.operator == op && q.store == db.anchor.value.store && q.expectedSequence == db.anchor.value.pinnedSequence + 1
      && q.binding.keyId == key.keyId && q.binding.publicKey == key.publicKey && q.binding.installId == install
      && q.binding.fingerprint == FingerprintDigest(key.publicKey) && q.nonce == key.nonce && q.blob == key.blob
      && q.createdAt == at && q.expiresAt == at + 24 * 60 * 60 * SECOND
  {
  }

  /** A package is only ever committed on a machine without a ledger that has this very request open and pinned a
      checkpoint of its history, and only with a certificate that answers the request at the row it asked for;
      the request is then closed, and the requested key is the machine's. */
  lemma FinalizationNeeds(db: Db, op: OperatorId, package: Package, now: int)
    requires FinalizePairing(db, op, package, now).Ok?
    ensures var q := package.request; var t := package.transport; var r := FinalizePairing(db, op, package, now).value;
      && TransportOk(t, now) && db.ledger == [] && db.anchor.Some? && db.anchor.value.blockReason == None
      && q.requestId in db.requests && db.requests[q.requestId] == PendingRequest(q, false)
      && |t.ledger| > 0 && t.ledger[0].sha == db.anchor.value.genesisSha && t.store == db.anchor.value.store
      && (exists c :: c in t.history && db.anchor.value.checkpointSha == Some(CheckpointDigest(c)))
      && (exists row :: row in t.ledger && row.sha == package.certificateSha && Answers(row, q))
      && r.requests == db.requests[q.requestId := PendingRequest(q, true)] && r.ledger == t.ledger
      && q.binding.keyId in r.keyRows && r.keyRows - {q.binding.keyId} == db.keyRows
      && r.keyRows[q.binding.keyId].publicKey == q.binding.publicKey && r.keyRows[q.binding.keyId].installId == q.binding.installId
  {
    hide HistoryOk, PinAll, ReplayAndAdvance, Accepted, KeysAfter, CheckpointOk, DistinctEventIds, TransportOk;
    var history := package.transport.history;
    var start := IndexOf(history, db.anchor.value.checkpointSha.value).value;
    assert history[start] in history;
    var certificate := RowWithSha(package.transport.ledger, package.certificateSha).value;
    assert Answers(certificate, package.request);
    var ledgered := db.(ledger := package.transport.ledger);
    var pinned := PinAll(ledgered, history[start + 1..], now).value;
    PinAllFacts(ledgered, pinned, history[start + 1..], now);
    var keyed := InsertKeyRow(pinned, package.request.binding.keyId, KeyRowFor(package.request, certificate.sequence)).value;
    AdvancedAtHead(keyed, op, now);
    hide AnchoredAtHead;
  }

  /** The row certifies what the request asked for, where it asked for it. */
  predicate Answers(row: Row, q: PairingRequest) {
    && row.sequence == q.expectedSequence && row.event.Lifecycle? && row.event.details.KeyDetails?
    && row.event.details.authorization.Some? && row.event.details.authorization.value.requestSha == RequestDigest(q)
  }

  /** A restore is only ever committed with the credential and checkpoint the target pinned, active as a recovery
      key on a fresh transport of the same domain. */
  lemma RestoreNeeds(db: Db, op: OperatorId, bundle: Bundle, transport: Transport, replaced: Option<InstallId>, key: NewKey, install: InstallId,
                     eventId: string, at: int, now: int)
    requires Recover(db, op, bundle, transport, replaced, key, install, eventId, at, now).Ok?
    ensures BundleOk(bundle) && TransportOk(transport, now) && db.ledger == [] && db.anchor.Some? && bundle.history != []
    ensures transport.operator == bundle.operator == op && transport.store == bundle.store && transport.genesisSha == bundle.genesisSha
    ensures var a := db.anchor.value;
      && a.operator == op && a.store == bundle.store && a.genesisSha == bundle.genesisSha
      && a.recoveryKey == Some(bundle.recoveryKey) && a.recoveryPublicKey == Some(bundle.recoveryPublicKey)
      && a.checkpointSha == Some(CheckpointDigest(bundle.history[|bundle.history| - 1]))
    ensures var keys := KeysAfter(transport.ledger);
      && bundle.recoveryKey in keys && keys[bundle.recoveryKey].status == Active && keys[bundle.recoveryKey].kind == Recovery
      && keys[bundle.recoveryKey].publicKey == bundle.recoveryPublicKey
  {
    hide BundleOk, TransportOk, PinAll, KeysAfter, Accepted, KeyStateSha, RestoreDetails, DistinctEventIds, EventIdUsed;
  }

  /** A bundle is good exactly when its ledger replays and ends where it says, every item of its history continues the one
      before it and verifies there, and the installation key it names, still active, signed it for an active recovery key. */
  lemma BundleExactly(b: Bundle)
    ensures BundleOk(b) <==>
      && |b.history| > 0 && (forall k | 0 <= k < |b.history| :: FollowsAt(b.history, None, k))
      && (forall c | c in b.history :: Verifies(b.ledger, b.operator, Some(b.store), Some(c), None, 0, false))
      && Accepted(b.ledger, b.operator) && |b.ledger| > 0 && StoreOf(b.ledger) == b.store
      && |b.ledger| == b.ledgerSequence && b.ledger[|b.ledger| - 1].sha == b.ledgerHead && b.ledger[0].sha == b.genesisSha
      && SignedFor(KeysAfter(b.ledger), b)
  {
    ClosedIsChained(b.history, None);
    HistoryOkExactly(b.ledger, b.operator, b.store, b.history, None, None, 0);
    AcceptedNotEmpty(b.ledger, b.operator);
    hide HistoryOk, Accepted, KeysAfter, CheckpointOk, Closed;
  }

  /** The installation key named by the bundle signed it, and its recovery key is one. */
  predicate SignedFor(keys: KeyMap, b: Bundle) {
    && b.signerKey in keys && keys[b.signerKey].status == Active && keys[b.signerKey].kind == Installation
    && keys[b.signerKey].installId == b.signerInstall && b.signedBy == keys[b.signerKey].publicKey
    && b.recoveryKey in keys && keys[b.recoveryKey].status == Active && keys[b.recoveryKey].kind == Recovery
  }

  lemma AcceptedNotEmpty(rows: seq<Row>, op: OperatorId)
    ensures Accepted(rows, op) ==> |rows| > 0
  {
    hide KeysAfter;
  }

  /** A transport is accepted exactly when its history is a chain that verifies on its ledger and ends in its checkpoint, in that
      checkpoint's window, and its genesis is the ledger's. */
  lemma TransportExactly(t: Transport, now: int)
    ensures TransportOk(t, now) <==>
      && |t.history| > 0 && (forall k | 0 <= k < |t.history| :: FollowsAt(t.history, None, k)) && t.history[|t.history| - 1] == t.checkpoint
      && (forall c | c in t.history :: Verifies(t.ledger, t.operator, Some(t.store), Some(c), None, now, c == t.checkpoint))
      && |t.ledger| > 0 && t.ledger[0].sha == t.genesisSha
  {
    ClosedIsChained(t.history, None);
    if |t.history| > 0 {
      HistoryOkExactly(t.ledger, t.operator, t.store, t.history, None, Some(t.history[|t.history| - 1]), now);
    }
    AcceptedNotEmpty(t.ledger, t.operator);
    hide HistoryOk, Accepted, CheckpointOk, Closed;
  }
}
