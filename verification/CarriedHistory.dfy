/** The checkpoint history a machine carries to others: what orders it, when it
    verifies, and the pairing that it makes succeed. */
module CarriedHistory {
  import opened Outcomes
  import opened AuthorityData
  import opened AuthorityLedger
  import opened LedgerHistory
  import opened AuthorityTrust
  import opened AuthorityService
  import opened ServiceRuns

  // ---------- the pins in the order they were made ----------

  /** Every pin is kept under its digest and continues the pin made before it. */
  predicate PinsChained(pins: seq<Pin>) {
    forall i | 0 <= i < |pins| :: ChainedAt(pins, i)
  }

  predicate ChainedAt(pins: seq<Pin>, i: int)
    requires 0 <= i < |pins|
  {
    && pins[i].sha == CheckpointDigest(pins[i].checkpoint)
    && pins[i].checkpoint.body.prior == if i == 0 then None else Some(CheckpointDigest(pins[i - 1].checkpoint))
  }

  /** No pin was accepted at an earlier clock reading than the one made before it. */
  predicate AcceptanceOrdered(pins: seq<Pin>) {
    forall i, j | 0 <= i < j < |pins| :: pins[i].acceptedAt <= pins[j].acceptedAt
  }

  function CheckpointsOf(pins: seq<Pin>): (history: seq<Checkpoint>)
    ensures |history| == |pins|
  {
    seq(|pins|, i requires 0 <= i < |pins| => pins[i].checkpoint)
  }

  /** No two pins of a chain hold the same checkpoint. */
  lemma {:induction false} ChainIsDistinct(pins: seq<Pin>, i: nat, j: nat)
    requires PinsChained(pins) && i < |pins| && j < |pins| && pins[i].checkpoint == pins[j].checkpoint
    ensures i == j
  {
    assert ChainedAt(pins, i) && ChainedAt(pins, j);
    if i > 0 && j > 0 {
      ChainIsDistinct(pins, i - 1, j - 1);
    }
  }

  predicate FollowsAt(history: seq<Checkpoint>, prior: Option<Digest>, i: int)
    requires 0 <= i < |history|
  {
    history[i].body.prior == if i == 0 then prior else Some(CheckpointDigest(history[i - 1]))
  }

  lemma {:induction false} ClosedIsChained(history: seq<Checkpoint>, prior: Option<Digest>)
    ensures Closed(history, prior) <==> forall i | 0 <= i < |history| :: FollowsAt(history, prior, i)
  {
    if history != [] {
      var rest, next := history[1..], Some(CheckpointDigest(history[0]));
      ClosedIsChained(rest, next);
      assert forall i | 0 <= i < |rest| :: FollowsAt(rest, next, i) == FollowsAt(history, prior, i + 1);
      assert FollowsAt(history, prior, 0) == (history[0].body.prior == prior);
      if Closed(rest, next) && FollowsAt(history, prior, 0) {
        forall i | 0 <= i < |history|
          ensures FollowsAt(history, prior, i)
        {
          assert i > 0 ==> FollowsAt(rest, next, i - 1);
        }
      }
    }
  }

  lemma {:induction false} InsertBounds(sorted: seq<Pin>, pin: Pin, m: int)
    requires pin.acceptedAt <= m && forall k | 0 <= k < |sorted| :: sorted[k].acceptedAt <= m
    ensures forall k | 0 <= k < |InsertPin(sorted, pin)| :: InsertPin(sorted, pin)[k].acceptedAt <= m
  {
    if sorted != [] && sorted[|sorted| - 1].acceptedAt > pin.acceptedAt {
      InsertBounds(sorted[..|sorted| - 1], pin, m);
    }
  }

  lemma OrderedAppend(a: seq<Pin>, last: Pin)
    requires AcceptanceOrdered(a) && forall k | 0 <= k < |a| :: a[k].acceptedAt <= last.acceptedAt
    ensures AcceptanceOrdered(a + [last])
  {
  }

  lemma OrderedInit(a: seq<Pin>)
    requires AcceptanceOrdered(a) && a != []
    ensures AcceptanceOrdered(a[..|a| - 1]) && forall k | 0 <= k < |a| :: a[k].acceptedAt <= a[|a| - 1].acceptedAt
  {
    forall k | 0 <= k < |a|
      ensures a[k].acceptedAt <= a[|a| - 1].acceptedAt
    {
    }
  }

  lemma {:induction false} InsertKeepsOrder(sorted: seq<Pin>, pin: Pin)
    requires AcceptanceOrdered(sorted)
    ensures AcceptanceOrdered(InsertPin(sorted, pin))
  {
    if sorted != [] {
      OrderedInit(sorted);
      hide AcceptanceOrdered;
      var init, last := sorted[..|sorted| - 1], sorted[|sorted| - 1];
      if last.acceptedAt > pin.acceptedAt {
        InsertKeepsOrder(init, pin);
        InsertBounds(init, pin, last.acceptedAt);
        OrderedAppend(InsertPin(init, pin), last);
      } else {
        OrderedAppend(sorted, pin);
      }
    }
  }

  lemma {:induction false} SortPinsOrders(pins: seq<Pin>)
    ensures AcceptanceOrdered(SortPins(pins))
    ensures AcceptanceOrdered(pins) ==> SortPins(pins) == pins
  {
    if pins != [] {
      var init, last := pins[..|pins| - 1], pins[|pins| - 1];
      assert pins == init + [last];
      SortPinsOrders(init);
      InsertKeepsOrder(SortPins(init), last);
      if AcceptanceOrdered(pins) {
        OrderedInit(pins);
        hide AcceptanceOrdered;
        assert init != [] ==> init[|init| - 1] == pins[|init| - 1];
      }
    }
  }

  /** A closed arrangement of the pins is the order they were made in. */
  lemma {:induction false} ClosedPlaces(pins: seq<Pin>, sorted: seq<Pin>, i: nat)
    requires PinsChained(pins) && multiset(sorted) == multiset(pins) && Closed(CheckpointsOf(sorted), None) && i < |sorted|
    ensures i < |pins| && sorted[i] == pins[i]
  {
    var history := CheckpointsOf(sorted);
    ClosedIsChained(history, None);
    assert FollowsAt(history, None, i);
    assert |multiset(sorted)| == |multiset(pins)|;
    assert sorted[i] in multiset(pins);
    var k: nat :| k < |pins| && pins[k] == sorted[i];
    assert ChainedAt(pins, k);
    if i > 0 {
      ClosedPlaces(pins, sorted, i - 1);
      assert history[i - 1] == sorted[i - 1].checkpoint;
      assert k > 0;
      ChainIsDistinct(pins, k - 1, i - 1);
    }
  }

  /** The history read from the table is closed if and only if the clock never stepped
      back between two pins; it is then the pins in the order they were made. */
  lemma HistoryClosedExactly(pins: seq<Pin>)
    requires PinsChained(pins)
    ensures Closed(HistoryOf(pins), None) <==> AcceptanceOrdered(pins)
    ensures AcceptanceOrdered(pins) ==> HistoryOf(pins) == CheckpointsOf(pins)
  {
    SortPinsOrders(pins);
    var sorted := SortPins(pins);
    hide SortPins, AcceptanceOrdered;
    assert HistoryOf(pins) == CheckpointsOf(sorted);
    if AcceptanceOrdered(pins) {
      ChainIsClosed(pins);
    }
    if Closed(HistoryOf(pins), None) {
      assert |multiset(sorted)| == |multiset(pins)|;
      forall i | 0 <= i < |sorted|
        ensures sorted[i] == pins[i]
      {
        ClosedPlaces(pins, sorted, i);
      }
      assert sorted == pins;
    }
  }

  lemma ChainIsClosed(pins: seq<Pin>)
    requires PinsChained(pins)
    ensures Closed(CheckpointsOf(pins), None)
  {
    var history := CheckpointsOf(pins);
    ClosedIsChained(history, None);
    forall i | 0 <= i < |history|
      ensures FollowsAt(history, None, i)
    {
      assert ChainedAt(pins, i);
    }
  }

  // ---------- pins that verify, and keep verifying ----------

  /** A checkpoint that verified keeps verifying, freshness aside, on every accepted extension. */
  lemma CheckpointStays(rows: seq<Row>, longer: seq<Row>, op: OperatorId, c: Checkpoint, s: int, t: int, enforceFreshness: bool)
    requires Accepted(rows, op) && Accepted(longer, op) && rows <= longer
    requires CheckpointOk(rows, op, c, s, enforceFreshness)
    ensures CheckpointOk(longer, op, c, t, false)
  {
    hide KeysAfter, KeyStateSha, Accepted, FreshAt;
    AcceptedGenesis(rows, op);
    var k := |rows|;
    assert longer[..k] == rows && longer[..|longer|] == longer;
    assert rows[..c.body.sequence] == longer[..c.body.sequence];
    KeysPersist(longer, k, |longer|, op);
    assert longer[0] == rows[0];
  }

  ghost predicate PinsVerify(ledger: seq<Row>, op: OperatorId, pins: seq<Pin>) {
    && (forall i | 0 <= i < |pins| :: CheckpointOk(ledger, op, pins[i].checkpoint, 0, false))
    && (forall i, j | 0 <= i < j < |pins| :: pins[i].checkpoint.body.sequence <= pins[j].checkpoint.body.sequence)
  }

  /** The machine's own key rows are of this store. */
  predicate RowsOfStore(keyRows: map<KeyId, KeyRow>, store: StoreId) { forall id | id in keyRows :: keyRows[id].store == store }

  /** The pins are a chain on this ledger that ends at the anchor's checkpoint. */
  ghost predicate Carried(db: Db, op: OperatorId) {
    && |db.ledger| > 0 && RowsOfStore(db.keyRows, StoreOf(db.ledger))
    && db.pins != [] && db.anchor.Some?
    && db.anchor.value.checkpointSha == Some(CheckpointDigest(db.pins[|db.pins| - 1].checkpoint))
    && db.anchor.value.checkpoint == Some(db.pins[|db.pins| - 1].checkpoint)
    && PinsChained(db.pins) && PinsVerify(db.ledger, op, db.pins) && DistinctEventIds(db.ledger)
  }

  /** After one accepted row with an unused id that leaves the pins alone. */
  lemma GrowthCarries(db: Db, r: Db, op: OperatorId, row: Row)
    requires Carried(db, op) && Accepted(db.ledger, op) && Accepted(r.ledger, op)
    requires r.ledger == db.ledger + [row] && !EventIdUsed(db.ledger, row.columns.eventId)
    requires r.pins == db.pins && r.anchor.Some? && r.anchor.value.checkpointSha == db.anchor.value.checkpointSha
    requires r.anchor.value.checkpoint == db.anchor.value.checkpoint
    requires RowsOfStore(db.keyRows, StoreOf(db.ledger)) ==> RowsOfStore(r.keyRows, StoreOf(db.ledger))
    ensures Carried(r, op)
  {
    hide Accepted, CheckpointOk, PinsChained, RowsOfStore;
    assert r.ledger[0] == db.ledger[0];
    forall i | 0 <= i < |r.pins|
      ensures CheckpointOk(r.ledger, op, r.pins[i].checkpoint, 0, false)
    {
      CheckpointStays(db.ledger, r.ledger, op, db.pins[i].checkpoint, 0, 0, false);
    }
    hide PinsVerify;
    forall i, j | 0 <= i < j < |r.ledger|
      ensures r.ledger[i].columns.eventId != r.ledger[j].columns.eventId
    {
      assert r.ledger[i] == db.ledger[i];
    }
  }

  /** After a checkpoint issued at the head has been pinned. */
  lemma PinCarries(db: Db, r: Db, op: OperatorId, signer: KeyId, privateKeyOf: Bytes, ttl: int, issued: int, now: int)
    requires Carried(db, op) && Accepted(db.ledger, op) && db.anchor.value.operator == op
    requires CheckpointAndPin(db, op, signer, privateKeyOf, ttl, issued, now) == Ok(r)
    ensures Carried(r, op) && |r.pins| == |db.pins| + 1 && r.pins[..|db.pins|] == db.pins && r.pins[|db.pins|].acceptedAt == now
    ensures var c := r.pins[|db.pins|].checkpoint;
      && r.anchor.value.checkpoint == Some(c) && c.body.sequence == |db.ledger| && c.body.eventSha == HeadSha(db.ledger)
      && c.body.issuedAt == issued && c.body.expiresAt == issued + ttl * SECOND && issued <= now < issued + ttl * SECOND
  {
    hide KeysAfter, KeyStateSha, Accepted, PinsChained, PinsVerify, DistinctEventIds, RowsOfStore;
    var last := |db.pins|;
    var c := NewCheckpoint(db.ledger, op, signer, privateKeyOf, issued, ttl, db.anchor.value.checkpointSha).value;
    assert r == PinLocal(db, c, now, true).value;
    assert r.pins == db.pins + [Pin(CheckpointDigest(c), c, now)];
    CheckpointStays(db.ledger, db.ledger, op, c, now, 0, true);
    ChainExtends(db.pins, Pin(CheckpointDigest(c), c, now));
    VerifyExtends(db.ledger, op, db.pins, Pin(CheckpointDigest(c), c, now));
    hide CheckpointOk;
    assert r.ledger == db.ledger;
  }

  lemma ChainExtends(pins: seq<Pin>, pin: Pin)
    requires PinsChained(pins) && pins != [] && pin.sha == CheckpointDigest(pin.checkpoint)
    requires pin.checkpoint.body.prior == Some(CheckpointDigest(pins[|pins| - 1].checkpoint))
    ensures PinsChained(pins + [pin])
  {
    forall i | 0 <= i < |pins + [pin]|
      ensures ChainedAt(pins + [pin], i)
    {
      if i < |pins| {
        assert ChainedAt(pins, i);
      }
    }
  }

  lemma VerifyExtends(ledger: seq<Row>, op: OperatorId, pins: seq<Pin>, pin: Pin)
    requires PinsVerify(ledger, op, pins) && CheckpointOk(ledger, op, pin.checkpoint, 0, false) && pin.checkpoint.body.sequence == |ledger|
    ensures PinsVerify(ledger, op, pins + [pin])
  {
    assert forall i | 0 <= i < |pins| :: pins[i].checkpoint.body.sequence <= |ledger|;
    hide CheckpointOk;
  }

  // ---------- every ceremony carries the chain on ----------

  /** What a ceremony does to the pins: nothing, or one more. */
  predicate PinsGrow(a: seq<Pin>, b: seq<Pin>) { |a| <= |b| <= |a| + 1 && b[..|a|] == a }

  lemma RotationCarries(db: Db, r: Db, op: OperatorId, key: NewKey, eventId: string, at: int, now: int)
    requires Coherent(db, op) && Carried(db, op) && Rotate(db, op, key, eventId, at, now) == Ok(r)
    ensures Carried(r, op) && r.pins == db.pins
  {
    RotationIdIsNew(db, op, key, eventId, at, now);
    hide Rotate, ReplayAndAdvance, RowsAgree, Accepted, KeysAfter, Carried, AtMostOneActive, HoldMatches, KeyStateSha;
    var signer, row := RotateSteps(db, op, key, eventId, at, now);
    AdvancedAtHead(Rotated(db, signer, key, row), op, now);
    RotatedRowsOfStore(db, signer, key, row);
    hide RowsOfStore;
    GrowthCarries(db, r, op, row);
  }

  lemma RotatedRowsOfStore(db: Db, signer: KeyId, key: NewKey, row: Row)
    requires signer in db.keyRows && |db.ledger| > 0
    ensures RowsOfStore(db.keyRows, StoreOf(db.ledger)) ==> RowsOfStore(Rotated(db, signer, key, row).keyRows, StoreOf(db.ledger))
  {
  }

  lemma RotationIdIsNew(db: Db, op: OperatorId, key: NewKey, eventId: string, at: int, now: int)
    requires Rotate(db, op, key, eventId, at, now).Ok?
    ensures !EventIdUsed(db.ledger, eventId)
  {
    hide Accepted, KeysAfter, ReplayAndAdvance, SigningKey, ActiveBinding, InsertKeyRow, EventIdUsed;
  }

  lemma StateChangeCarries(db: Db, r: Db, op: OperatorId, q: StateRequest, bundle: Option<Bundle>, eventId: string, proofId: string, at: int, now: int)
    requires Coherent(db, op) && Carried(db, op) && ChangeKeyState(db, op, q, bundle, eventId, proofId, at, now) == Ok(r)
    ensures Carried(r, op) && r.pins == db.pins
  {
    StateIdIsNew(db, op, q, bundle, eventId, proofId, at, now);
    hide ChangeKeyState, ReplayAndAdvance, RowsAgree, Accepted, KeysAfter, Carried, AtMostOneActive, HoldMatches, KeyStateSha, Marked, StateDetailsFor;
    var signer, row := StateSteps(db, op, q, bundle, eventId, proofId, at, now);
    AdvancedAtHead(Marked(db, q, row), op, now);
    MarkedTables(db, q, row);
    hide RowsOfStore;
    GrowthCarries(db, r, op, row);
  }

  lemma MarkedTables(db: Db, q: StateRequest, row: Row)
    ensures var m := Marked(db, q, row); m.ledger == db.ledger + [row] && m.anchor == db.anchor && m.pins == db.pins
    ensures forall store :: RowsOfStore(db.keyRows, store) ==> RowsOfStore(Marked(db, q, row).keyRows, store)
  {
  }

  lemma StateIdIsNew(db: Db, op: OperatorId, q: StateRequest, bundle: Option<Bundle>, eventId: string, proofId: string, at: int, now: int)
    requires ChangeKeyState(db, op, q, bundle, eventId, proofId, at, now).Ok?
    ensures !EventIdUsed(db.ledger, eventId)
  {
    hide Accepted, KeysAfter, ReplayAndAdvance, StateSigner, EventIdUsed, Retain, SetKeyStatus, StateDetailsFor, Blank;
  }

  lemma DecisionCarries(db: Db, r: Db, op: OperatorId, proofId: string, chosen: Digest, reason: string, bundle: Bundle, eventId: string, at: int)
    requires Coherent(db, op) && Carried(db, op) && Adjudicate(db, op, proofId, chosen, reason, bundle, eventId, at) == Ok(r)
    ensures Carried(r, op) && r.pins == db.pins
  {
    DecisionIdIsNew(db, op, proofId, chosen, reason, bundle, eventId, at);
    hide Adjudicate, RowsAgree, Accepted, KeysAfter, Carried, AtMostOneActive, HoldMatches, KeyStateSha;
    var row := AdjudicationSteps(db, op, proofId, chosen, reason, bundle, eventId, at);
    GrowthCarries(db, r, op, row);
  }

  lemma DecisionIdIsNew(db: Db, op: OperatorId, proofId: string, chosen: Digest, reason: string, bundle: Bundle, eventId: string, at: int)
    requires Adjudicate(db, op, proofId, chosen, reason, bundle, eventId, at).Ok?
    ensures !EventIdUsed(db.ledger, eventId)
  {
    hide Accepted, KeysAfter, BundleOk, ReadConflict, EventIdUsed;
  }

  /** What one issued and pinned checkpoint looks like on the machine. */
  ghost predicate JustPinned(db: Db, r: Db, issued: int, ttl: int, now: int) {
    && |r.pins| == |db.pins| + 1 && r.pins[..|db.pins|] == db.pins && |r.ledger| > 0
    && r.anchor.Some? && r.anchor.value.checkpoint.Some?
    && var pin := r.pins[|db.pins|]; var c := pin.checkpoint;
    && pin.acceptedAt == now && r.anchor.value.checkpoint == Some(c)
    && c.body.sequence == |r.ledger| && c.body.eventSha == HeadSha(r.ledger)
    && c.body.issuedAt == issued && c.body.expiresAt == issued + ttl * SECOND && issued <= now < issued + ttl * SECOND
  }

  lemma CheckpointCarries(db: Db, r: Db, op: OperatorId, ttl: int, issued: int, now: int)
    requires Coherent(db, op) && Carried(db, op) && CreateCheckpoint(db, op, ttl, issued, now) == Ok(r)
    ensures Carried(r, op) && JustPinned(db, r, issued, ttl, now)
  {
    hide RowsAgree, Accepted, KeysAfter, Carried, AtMostOneActive, HoldMatches, KeyStateSha, SigningKey, CheckpointAndPin;
    SigningKeyFacts(db, op);
    var signer := SigningKey(db, op).value;
    PinCarries(db, r, op, signer, db.keyRows[signer].publicKey, ttl, issued, now);
  }

  lemma AuthorizationCarries(db: Db, r: Db, package: Package, op: OperatorId, request: PairingRequest, eventId: string, at: int, issued: int, now: int)
    requires Coherent(db, op) && Carried(db, op) && AuthorizePairing(db, op, request, eventId, at, issued, now) == Ok((r, package))
    ensures Carried(r, op) && JustPinned(db, r, issued, DAY_SECONDS, now)
    ensures package.transport == TransportFrom(r, op, request.store)
    ensures r.ledger[|r.ledger| - 1].event.Lifecycle? && CertificateBinds(r.ledger[|r.ledger| - 1], request)
  {
    hide AuthorizePairing, Accepted, KeysAfter, Carried, KeyStateSha, CheckpointAndPin, ReplayAndAdvance, TransportFrom, Coherent, CertificateBinds, PairingRow;
    var signer, row, advanced := AuthorizationAdvances(db, op, request, eventId, at, issued, now);
    PinCarries(advanced, r, op, signer, db.keyRows[signer].publicKey, DAY_SECONDS, issued, now);
    assert r.ledger[|r.ledger| - 1] == row;
  }

  /** Between the two writes of an authorization: the certificate is on the ledger and the anchor at its head. */
  lemma AuthorizationAdvances(db: Db, op: OperatorId, request: PairingRequest, eventId: string, at: int, issued: int, now: int)
    returns (signer: KeyId, row: Row, advanced: Db)
    requires Coherent(db, op) && Carried(db, op) && AuthorizePairing(db, op, request, eventId, at, issued, now).Ok?
    ensures signer in db.keyRows && Carried(advanced, op) && advanced.pins == db.pins && advanced.ledger == db.ledger + [row]
    ensures Accepted(advanced.ledger, op) && advanced.anchor.value.operator == op
    ensures CheckpointAndPin(advanced, op, signer, db.keyRows[signer].publicKey, DAY_SECONDS, issued, now).Ok?
    ensures var r := AuthorizePairing(db, op, request, eventId, at, issued, now).value;
      && r.0 == CheckpointAndPin(advanced, op, signer, db.keyRows[signer].publicKey, DAY_SECONDS, issued, now).value
      && r.1.transport == TransportFrom(r.0, op, request.store)
    ensures row.event.Lifecycle? && CertificateBinds(row, request)
  {
    AuthorizationIdIsNew(db, op, request, eventId, at, issued, now);
    hide AuthorizePairing, RowsAgree, Accepted, KeysAfter, Carried, AtMostOneActive, HoldMatches, KeyStateSha, CheckpointAndPin, ReplayAndAdvance,
      TransportFrom, PairingRow, CertificateBinds;
    signer, row := AuthorizeSteps(db, op, request, eventId, at, issued, now);
    var appended := db.(ledger := db.ledger + [row]);
    AdvancedAtHead(appended, op, now);
    advanced := ReplayAndAdvance(appended, op, now).value;
    AnchoredIdentity(db, op);
    AnchoredIdentity(advanced, op);
    PairingRowBinds(db, op, signer, request, eventId, at);
    hide AnchoredAtHead;
    GrowthCarries(db, advanced, op, row);
  }

  lemma PairingRowBinds(db: Db, op: OperatorId, signer: KeyId, request: PairingRequest, eventId: string, at: int)
    requires AnchoredAtHead(db.ledger, db.anchor, op) && signer in db.keyRows && request.expectedSequence == db.anchor.value.pinnedSequence + 1
    ensures var row := PairingRow(db, op, signer, db.keyRows[signer], request, eventId, at);
      row.event.Lifecycle? && CertificateBinds(row, request) && row.columns.eventId == eventId
  {
    hide Accepted, KeysAfter, KeyStateSha;
    LastRowSequence(db.ledger, op);
  }

  lemma AuthorizationIdIsNew(db: Db, op: OperatorId, request: PairingRequest, eventId: string, at: int, issued: int, now: int)
    requires AuthorizePairing(db, op, request, eventId, at, issued, now).Ok?
    ensures !EventIdUsed(db.ledger, eventId)
  {
    hide Accepted, KeysAfter, ReplayAndAdvance, SigningKey, CheckpointAndPin, EventIdUsed, RequestCurrent, TransportFrom;
  }

  lemma RecoveryCarries(db: Db, r: Db, bundle: Bundle, op: OperatorId, recovery: KeyBinding, eventId: string, at: int, issued: int, now: int)
    requires Coherent(db, op) && Carried(db, op) && CreateRecovery(db, op, recovery, eventId, at, issued, now) == Ok((r, bundle))
    ensures Carried(r, op) && JustPinned(db, r, issued, DAY_SECONDS, now)
  {
    RecoveryIdIsNew(db, op, recovery, eventId, at, issued, now);
    hide CreateRecovery, RowsAgree, Accepted, KeysAfter, Carried, AtMostOneActive, HoldMatches, KeyStateSha, CheckpointAndPin;
    var signer, row := RecoverySteps(db, op, recovery, eventId, at, issued, now);
    var appended := db.(ledger := db.ledger + [row]);
    GrowthCarries(db, appended, op, row);
    var pinned := CheckpointAndPin(appended, op, signer, db.keyRows[signer].publicKey, DAY_SECONDS, issued, now).value;
    PinCarries(appended, pinned, op, signer, db.keyRows[signer].publicKey, DAY_SECONDS, issued, now);
    AnchorRecovery(pinned, r, op);
  }

  lemma AnchorRecovery(a: Db, b: Db, op: OperatorId)
    requires Carried(a, op) && b.pins == a.pins && b.ledger == a.ledger && b.anchor.Some? && b.keyRows == a.keyRows
    requires b.anchor.value.checkpointSha == a.anchor.value.checkpointSha && b.anchor.value.checkpoint == a.anchor.value.checkpoint
    ensures Carried(b, op)
  {
    hide PinsVerify, PinsChained, DistinctEventIds, RowsOfStore;
  }

  lemma RecoveryIdIsNew(db: Db, op: OperatorId, recovery: KeyBinding, eventId: string, at: int, issued: int, now: int)
    requires CreateRecovery(db, op, recovery, eventId, at, issued, now).Ok?
    ensures !EventIdUsed(db.ledger, eventId)
  {
    hide Accepted, KeysAfter, SigningKey, CheckpointAndPin, EventIdUsed, HistoryOf;
  }

  lemma CeremonyCarries(db: Db, r: Db, op: OperatorId, c: Ceremony)
    requires Coherent(db, op) && Carried(db, op) && Attempt(db, op, c) == Ok(r)
    ensures Carried(r, op) && PinsGrow(db.pins, r.pins)
  {
    hide CreateCheckpoint, Rotate, AuthorizePairing, CreateRecovery, ChangeKeyState, Adjudicate, Coherent, Carried, HeadSha;
    match c
    case CheckpointCeremony(ttl, issued, now) => CheckpointCarries(db, r, op, ttl, issued, now);
    case RotateCeremony(key, eventId, at, now) => RotationCarries(db, r, op, key, eventId, at, now);
    case AuthorizeCeremony(request, eventId, at, issued, now) =>
      AuthorizationCarries(db, r, AuthorizePairing(db, op, request, eventId, at, issued, now).value.1, op, request, eventId, at, issued, now);
    case RecoveryCeremony(recovery, eventId, at, issued, now) =>
      RecoveryCarries(db, r, CreateRecovery(db, op, recovery, eventId, at, issued, now).value.1, op, recovery, eventId, at, issued, now);
    case StateCeremony(q, bundle, eventId, proofId, at, now) =>
      StateChangeCarries(db, r, op, q, bundle, eventId, proofId, at, now);
    case AdjudicateCeremony(proofId, chosen, reason, bundle, eventId, at) =>
      DecisionCarries(db, r, op, proofId, chosen, reason, bundle, eventId, at);
  }

  /** Over every run of ceremonies the pins stay one chain on the ledger that ends at the
      anchor's checkpoint, and earlier pins and rows stay where they are. */
  lemma {:induction false} RunCarries(db: Db, op: OperatorId, ceremonies: seq<Ceremony>)
    requires Coherent(db, op) && Carried(db, op)
    ensures var r := ServiceRuns.Run(db, op, ceremonies);
      && Carried(r, op) && Coherent(r, op) && db.ledger <= r.ledger && |db.pins| <= |r.pins| && r.pins[..|db.pins|] == db.pins
  {
    hide Coherent, Carried, Attempt;
    if ceremonies != [] {
      var n := |ceremonies| - 1;
      RunCarries(db, op, ceremonies[..n]);
      var before := ServiceRuns.Run(db, op, ceremonies[..n]);
      PerformKeeps(before, op, ceremonies[n]);
      if Attempt(before, op, ceremonies[n]).Ok? {
        CeremonyCarries(before, Attempt(before, op, ceremonies[n]).value, op, ceremonies[n]);
      }
    }
  }

  /** An enrolled machine starts such a chain. */
  lemma EnrollmentCarries(db: Db, r: Db, op: OperatorId, store: StoreId, install: InstallId, key: NewKey, recovery: Option<KeyBinding>,
                          eventId: string, t0: int, t1: int, t2: int)
    requires db.pins == [] && db.keyRows == map[] && Enroll(db, op, store, install, key, recovery, eventId, t0, t1, t2) == Ok(r)
    ensures Carried(r, op) && |r.pins| == 1
  {
    hide KeysAfter, KeyStateSha, Accepted, RecoveryInChain, Distinct;
    var rows := r.ledger;
    AcceptedGenesis(rows, op);
    assert rows[..1] == rows;
    var c := NewCheckpoint(rows, op, key.keyId, key.publicKey, t1, DAY_SECONDS, None).value;
    assert r.pins == PinsOf([c], t2);
    EnrollmentSigner(rows, op, key, c);
  }

  lemma EnrollmentSigner(rows: seq<Row>, op: OperatorId, key: NewKey, c: Checkpoint)
    requires Accepted(rows, op) && |rows| == 1 && rows[0].event.Genesis? && rows[0].event.keyId == key.keyId && rows[0].event.publicKey == key.publicKey
    requires exists t :: NewCheckpoint(rows, op, key.keyId, key.publicKey, t, DAY_SECONDS, None) == Ok(c)
    ensures CheckpointOk(rows, op, c, 0, false)
  {
    var t :| NewCheckpoint(rows, op, key.keyId, key.publicKey, t, DAY_SECONDS, None) == Ok(c);
    CheckpointSurvivesGrowth(rows, rows, op, key.keyId, key.publicKey, t, DAY_SECONDS, None, 0);
  }

  // ---------- packages and bundles that verify ----------

  /** A carried history is accepted exactly when it is closed and each item verifies. */
  lemma {:induction false} HistoryOkExactly(rows: seq<Row>, op: OperatorId, store: StoreId, history: seq<Checkpoint>, prior: Option<Digest>,
                                            mustBeFresh: Option<Checkpoint>, now: int)
    ensures HistoryOk(rows, op, store, history, prior, mustBeFresh, now) <==>
      Closed(history, prior) && forall c | c in history :: Verifies(rows, op, Some(store), Some(c), None, now, mustBeFresh == Some(c))
  {
    hide Verifies;
    if history != [] {
      HistoryOkExactly(rows, op, store, history[1..], Some(CheckpointDigest(history[0])), mustBeFresh, now);
      assert forall c :: c in history <==> c == history[0] || c in history[1..];
    }
  }

  lemma PinnedVerifies(db: Db, op: OperatorId, c: Checkpoint, now: int, enforceFreshness: bool)
    requires Carried(db, op) && Accepted(db.ledger, op) && c in CheckpointsOf(db.pins)
    requires enforceFreshness ==> c.body.issuedAt <= now < c.body.expiresAt
    ensures Verifies(db.ledger, op, Some(StoreOf(db.ledger)), Some(c), None, now, enforceFreshness)
  {
    PinIsOk(db, op, c);
    hide Carried, CheckpointsOf, Accepted, CheckpointOk;
    OnlyFreshnessDiffers(db.ledger, op, c, now, enforceFreshness);
  }

  lemma PinIsOk(db: Db, op: OperatorId, c: Checkpoint)
    requires Carried(db, op) && c in CheckpointsOf(db.pins)
    ensures CheckpointOk(db.ledger, op, c, 0, false)
  {
    hide CheckpointOk, PinsChained, RowsOfStore, DistinctEventIds;
    var i: nat :| i < |CheckpointsOf(db.pins)| && CheckpointsOf(db.pins)[i] == c;
    assert CheckpointOk(db.ledger, op, db.pins[i].checkpoint, 0, false);
  }

  lemma OnlyFreshnessDiffers(rows: seq<Row>, op: OperatorId, c: Checkpoint, now: int, enforceFreshness: bool)
    requires CheckpointOk(rows, op, c, 0, false) && (enforceFreshness ==> c.body.issuedAt <= now < c.body.expiresAt)
    ensures CheckpointOk(rows, op, c, now, enforceFreshness)
  {
    hide KeysAfter, KeyStateSha;
  }

  /** On a chain in order the history is closed and verifies, its last item while it is fresh. */
  lemma CarriedHistoryOk(db: Db, op: OperatorId, recent: Option<Checkpoint>, now: int)
    requires Carried(db, op) && Accepted(db.ledger, op) && AcceptanceOrdered(db.pins)
    requires recent.Some? ==> recent.value.body.issuedAt <= now < recent.value.body.expiresAt
    ensures HistoryOf(db.pins) == CheckpointsOf(db.pins)
    ensures HistoryOk(db.ledger, op, StoreOf(db.ledger), CheckpointsOf(db.pins), None, recent, now)
  {
    HistoryClosedExactly(db.pins);
    hide Carried, Verifies, Accepted, AcceptanceOrdered, HistoryOf, CheckpointsOf, Closed;
    HistoryOkExactly(db.ledger, op, StoreOf(db.ledger), CheckpointsOf(db.pins), None, recent, now);
    forall c | c in CheckpointsOf(db.pins)
      ensures Verifies(db.ledger, op, Some(StoreOf(db.ledger)), Some(c), None, now, recent == Some(c))
    {
      PinnedVerifies(db, op, c, now, recent == Some(c));
    }
  }

  /** The package of a committed authorization verifies if and only if the source's clock
      never stepped back between two pins and the package's checkpoint is in its window. */
  lemma PackageVerifiesExactly(db: Db, r: Db, package: Package, op: OperatorId, request: PairingRequest, eventId: string,
                               at: int, issued: int, pinnedAt: int, now: int)
    requires Coherent(db, op) && Carried(db, op) && AuthorizePairing(db, op, request, eventId, at, issued, pinnedAt) == Ok((r, package))
    ensures TransportOk(package.transport, now) <==> AcceptanceOrdered(r.pins) && issued <= now < issued + DAY_SECONDS * SECOND
  {
    AuthorizationCarries(db, r, package, op, request, eventId, at, issued, pinnedAt);
    AuthorizeKeeps(db, r, package, op, request, eventId, at, issued, pinnedAt);
    AnchoredLedger(r, op);
    CarriedChain(r, op);
    hide AuthorizePairing, Coherent, Carried, CertificateBinds, KeyRequested, Accepted, Verifies, PinsChained;
    TransportOkExactly(r, op, package.transport, now);
    assert r.pins[|db.pins|] == r.pins[|r.pins| - 1];
  }

  lemma CarriedChain(db: Db, op: OperatorId)
    requires Carried(db, op)
    ensures PinsChained(db.pins) && db.pins != [] && |db.ledger| > 0
  {
    hide PinsVerify, DistinctEventIds;
  }

  lemma TransportOkExactly(r: Db, op: OperatorId, transport: Transport, now: int)
    requires Carried(r, op) && Accepted(r.ledger, op) && |r.ledger| > 0 && r.pins != [] && r.anchor.Some? && r.anchor.value.checkpoint.Some?
    requires transport == TransportFrom(r, op, StoreOf(r.ledger)) && r.anchor.value.checkpoint == Some(r.pins[|r.pins| - 1].checkpoint)
    ensures var b := r.pins[|r.pins| - 1].checkpoint.body;
      TransportOk(transport, now) <==> AcceptanceOrdered(r.pins) && b.issuedAt <= now < b.expiresAt
  {
    hide Carried, Accepted, AcceptanceOrdered, HistoryOf, PinsChained, CheckpointOk, HistoryOk, CheckpointsOf, Closed;
    var last := r.pins[|r.pins| - 1].checkpoint;
    CarriedChain(r, op);
    HistoryClosedExactly(r.pins);
    if AcceptanceOrdered(r.pins) && last.body.issuedAt <= now < last.body.expiresAt {
      CarriedHistoryOk(r, op, Some(last), now);
      LastIsCarried(r.pins);
      PinnedVerifies(r, op, last, now, true);
    }
    if TransportOk(transport, now) {
      HistoryOkExactly(r.ledger, op, StoreOf(r.ledger), HistoryOf(r.pins), None, Some(last), now);
      VerifiedIsFresh(r.ledger, op, last, now);
    }
  }

  lemma LastIsCarried(pins: seq<Pin>)
    requires pins != []
    ensures var history := CheckpointsOf(pins); var last := pins[|pins| - 1].checkpoint; last in history && history[|history| - 1] == last
  {
    assert CheckpointsOf(pins)[|pins| - 1] == pins[|pins| - 1].checkpoint;
  }

  lemma VerifiedIsFresh(rows: seq<Row>, op: OperatorId, c: Checkpoint, now: int)
    requires |rows| > 0 && Verifies(rows, op, Some(StoreOf(rows)), Some(c), None, now, true)
    ensures c.body.issuedAt <= now < c.body.expiresAt
  {
    hide Accepted, KeysAfter, KeyStateSha;
  }

  // ---------- bundles ----------

  /** What a recovery ceremony writes into its bundle. */
  lemma BundleContents(db: Db, r: Db, bundle: Bundle, op: OperatorId, recovery: KeyBinding, eventId: string, at: int, issued: int, now: int)
    returns (signer: KeyId)
    requires Coherent(db, op) && Carried(db, op) && CreateRecovery(db, op, recovery, eventId, at, issued, now) == Ok((r, bundle))
    ensures signer in db.keyRows && SigningKey(db, op) == Ok(signer) && |r.ledger| > 0 && r.anchor.Some? && r.anchor.value.checkpoint.Some?
    ensures bundle == Bundle(op, StoreOf(db.ledger), r.ledger[0].sha, r.ledger, HistoryOf(db.pins) + [r.anchor.value.checkpoint.value],
      |r.ledger|, HeadSha(r.ledger), recovery.keyId, recovery.publicKey, signer, db.keyRows[signer].installId, db.keyRows[signer].publicKey)
  {
    hide Accepted, KeysAfter, RowAgrees, CheckpointAndPin, HistoryOf, SigningKey, PinsChained, PinsVerify, DistinctEventIds, AppendEvent,
      AnchoredAtHead, HoldMatches;
    SigningKeyFacts(db, op);
    signer := SigningKey(db, op).value;
    assert signer in ActiveRows(db.keyRows);
  }

  lemma BundleSigner(db: Db, r: Db, bundle: Bundle, op: OperatorId, recovery: KeyBinding, eventId: string, at: int, issued: int, now: int, signer: KeyId)
    requires Coherent(db, op) && CreateRecovery(db, op, recovery, eventId, at, issued, now) == Ok((r, bundle))
    requires SigningKey(db, op) == Ok(signer) && signer in db.keyRows
    ensures var keys := KeysAfter(r.ledger);
      && IsActive(keys, signer) && keys[signer].kind == Installation
      && keys[signer].installId == db.keyRows[signer].installId && keys[signer].publicKey == db.keyRows[signer].publicKey
      && IsActive(keys, recovery.keyId) && keys[recovery.keyId].kind == Recovery && keys[recovery.keyId].publicKey == recovery.publicKey
  {
    SigningKeyFacts(db, op);
    AnchoredLedger(db, op);
    hide Accepted, KeysAfter, CreateRecovery, CheckpointAndPin, AnchoredAtHead, HoldMatches, SigningKey, AtMostOneActive;
    var row := RecoveryRow(db, op, signer, db.keyRows[signer], recovery, eventId, at);
    RecoveryKeeps(db, r, bundle, op, recovery, eventId, at, issued, now);
    AnchoredLedger(r, op);
    RecoveryLedger(db, r, bundle, op, recovery, eventId, at, issued, now, row);
    hide Coherent;
    SignerAfterRecovery(db, op, signer, row, recovery);
  }

  lemma SignerAfterRecovery(db: Db, op: OperatorId, signer: KeyId, row: Row, recovery: KeyBinding)
    requires Accepted(db.ledger, op) && |db.ledger| > 0 && Accepted(db.ledger + [row], op) && RowsAgree(db.ledger, db.keyRows)
    requires signer in db.keyRows && IsActive(KeysAfter(db.ledger), signer) && KeysAfter(db.ledger)[signer].kind == Installation
    requires row.event.kind == RecoveryCreated && row.event.Lifecycle? && row.event.details == KeyDetails(recovery, None, None, None, None)
    ensures var keys := KeysAfter(db.ledger + [row]);
      && IsActive(keys, signer) && keys[signer].kind == Installation
      && keys[signer].installId == db.keyRows[signer].installId && keys[signer].publicKey == db.keyRows[signer].publicKey
      && IsActive(keys, recovery.keyId) && keys[recovery.keyId].kind == Recovery && keys[recovery.keyId].publicKey == recovery.publicKey
  {
    hide Accepted, KeysAfter, Admissible, Apply;
    AppendedFacts(db, row, op);
    NewKeyLeavesOthers(KeysAfter(db.ledger), row, |db.ledger| + 1, op, StoreOf(db.ledger));
    assert RowAgrees(db.ledger, KeysAfter(db.ledger), signer, db.keyRows[signer]);
  }

  lemma RecoveryLedger(db: Db, r: Db, bundle: Bundle, op: OperatorId, recovery: KeyBinding, eventId: string, at: int, issued: int, now: int, row: Row)
    requires CreateRecovery(db, op, recovery, eventId, at, issued, now) == Ok((r, bundle)) && SigningKey(db, op).Ok? && |db.ledger| > 0
    requires SigningKey(db, op).value in db.keyRows
    requires row == RecoveryRow(db, op, SigningKey(db, op).value, db.keyRows[SigningKey(db, op).value], recovery, eventId, at)
    ensures r.ledger == db.ledger + [row]
  {
    hide Accepted, KeysAfter, CheckpointAndPin, HistoryOf, SigningKey;
  }

  /** The bundle of a committed recovery ceremony verifies if and only if the clock had
      never stepped back between two earlier pins. */
  lemma BundleVerifiesExactly(db: Db, r: Db, bundle: Bundle, op: OperatorId, recovery: KeyBinding, eventId: string, at: int, issued: int, now: int)
    requires Coherent(db, op) && Carried(db, op) && CreateRecovery(db, op, recovery, eventId, at, issued, now) == Ok((r, bundle))
    ensures BundleOk(bundle) <==> AcceptanceOrdered(db.pins)
    ensures AcceptanceOrdered(db.pins) ==> bundle.history == CheckpointsOf(r.pins)
  {
    RecoveryCarries(db, r, bundle, op, recovery, eventId, at, issued, now);
    RecoveryKeeps(db, r, bundle, op, recovery, eventId, at, issued, now);
    AnchoredLedger(r, op);
    AnchoredLedger(db, op);
    var signer := BundleContents(db, r, bundle, op, recovery, eventId, at, issued, now);
    BundleSigner(db, r, bundle, op, recovery, eventId, at, issued, now, signer);
    CarriedChain(db, op);
    CarriedChain(r, op);
    hide Accepted, KeysAfter, CreateRecovery, Coherent, Carried, SigningKey, AcceptanceOrdered, Verifies;
    assert r.ledger[0] == db.ledger[0];
    BundleHistory(db, r, op, bundle.history);
  }

  lemma BundleHistory(db: Db, r: Db, op: OperatorId, history: seq<Checkpoint>)
    requires Carried(r, op) && Accepted(r.ledger, op) && |r.ledger| > 0 && PinsChained(db.pins) && PinsChained(r.pins)
    requires |r.pins| == |db.pins| + 1 && r.pins[..|db.pins|] == db.pins
    requires history == HistoryOf(db.pins) + [r.pins[|db.pins|].checkpoint]
    ensures HistoryOk(r.ledger, op, StoreOf(r.ledger), history, None, None, 0) <==> AcceptanceOrdered(db.pins)
    ensures Accepted(r.ledger, op) && Verifies(r.ledger, op, Some(StoreOf(r.ledger)), None, None, 0, true)
    ensures AcceptanceOrdered(db.pins) ==> history == CheckpointsOf(r.pins)
  {
    hide Carried, Accepted, AcceptanceOrdered, HistoryOf, PinsChained, Closed, CheckpointsOf, HistoryOk, CheckpointOk;
    HistoryClosedExactly(db.pins);
    if AcceptanceOrdered(db.pins) {
      CheckpointsExtend(db.pins, r.pins);
      AllHistoryOk(r, op);
    } else {
      HistoryOkExactly(r.ledger, op, StoreOf(r.ledger), history, None, None, 0);
      if Closed(history, None) {
        ClosedPrefix(HistoryOf(db.pins), [r.pins[|db.pins|].checkpoint], None);
      }
    }
  }

  lemma CheckpointsExtend(a: seq<Pin>, b: seq<Pin>)
    requires |b| == |a| + 1 && b[..|a|] == a
    ensures CheckpointsOf(b) == CheckpointsOf(a) + [b[|a|].checkpoint]
  {
  }

  lemma AllHistoryOk(r: Db, op: OperatorId)
    requires Carried(r, op) && Accepted(r.ledger, op) && PinsChained(r.pins) && |r.ledger| > 0
    ensures HistoryOk(r.ledger, op, StoreOf(r.ledger), CheckpointsOf(r.pins), None, None, 0)
  {
    ChainIsClosed(r.pins);
    hide Verifies, Closed, PinsChained, CheckpointsOf, Carried, Accepted;
    HistoryOkExactly(r.ledger, op, StoreOf(r.ledger), CheckpointsOf(r.pins), None, None, 0);
    forall c | c in CheckpointsOf(r.pins)
      ensures Verifies(r.ledger, op, Some(StoreOf(r.ledger)), Some(c), None, 0, false)
    {
      PinnedVerifies(r, op, c, 0, false);
    }
  }

  lemma {:induction false} ClosedPrefix(a: seq<Checkpoint>, b: seq<Checkpoint>, prior: Option<Digest>)
    requires Closed(a + b, prior)
    ensures Closed(a, prior)
  {
    if a != [] {
      assert (a + b)[1..] == a[1..] + b;
      ClosedPrefix(a[1..], b, Some(CheckpointDigest(a[0])));
    }
  }
}
