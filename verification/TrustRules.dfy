/** When each move of the trust anchor is made, exactly, and what it then holds. */
module TrustRules {
  import opened Outcomes
  import opened AuthorityData
  import opened AuthorityLedger
  import opened AuthorityTrust
  import opened CarriedHistory

  /** Two anchors have one digest exactly when they agree in everything but the stored
      text of the checkpoint and the update time. */
  lemma AnchorDigestExactly(a: Anchor, b: Anchor)
    ensures a.Digest() == b.Digest() <==>
      && a.operator == b.operator && a.store == b.store && a.genesisSha == b.genesisSha
      && a.recoveryKey == b.recoveryKey && a.recoveryPublicKey == b.recoveryPublicKey
      && a.pinnedSequence == b.pinnedSequence && a.pinnedHead == b.pinnedHead && a.keyStateSha == b.keyStateSha
      && a.checkpointSha == b.checkpointSha && a.certificate == b.certificate && a.blockReason == b.blockReason
  {
  }

  // ---------- transfers ----------

  /** The position of the first item with this digest. */
  predicate FirstWith(history: seq<Checkpoint>, sha: Digest, i: nat) {
    i < |history| && CheckpointDigest(history[i]) == sha && forall j | 0 <= j < i :: CheckpointDigest(history[j]) != sha
  }

  lemma {:induction false} IndexOfExactly(history: seq<Checkpoint>, sha: Digest)
    ensures IndexOf(history, sha).Some? <==> exists i: nat :: FirstWith(history, sha, i)
    ensures IndexOf(history, sha).Some? ==> IndexOf(history, sha).value >= 0 && FirstWith(history, sha, IndexOf(history, sha).value)
  {
    if history != [] && CheckpointDigest(history[0]) != sha {
      IndexOfExactly(history[1..], sha);
      if i: nat :| FirstWith(history, sha, i) {
        assert i > 0;
        assert forall j | 0 <= j < i - 1 :: history[1..][j] == history[j + 1];
        assert FirstWith(history[1..], sha, i - 1);
      }
      if IndexOf(history[1..], sha).Some? {
        var i := IndexOf(history[1..], sha).value;
        assert forall j | 1 <= j < i + 1 :: history[j] == history[1..][j - 1];
        assert FirstWith(history, sha, i + 1);
      }
    } else if history != [] {
      assert FirstWith(history, sha, 0);
    }
  }

  lemma {:induction false} ExtendsExactly(source: seq<Row>, anchor: Anchor, items: seq<Checkpoint>, prior: Option<Digest>, last: Checkpoint, now: int)
    ensures Extends(source, anchor, items, prior, last, now) <==>
      && (forall k | 0 <= k < |items| :: FollowsAt(items, prior, k))
      && forall k | 0 <= k < |items| :: Verifies(source, anchor.operator, Some(anchor.store), Some(items[k]), Some(anchor.Pinned()), now, items[k] == last)
  {
    hide Verifies;
    ClosedIsChained(items, prior);
    ExtendsIsClosed(source, anchor, items, prior, last, now);
    assert forall c :: c in items <==> exists k :: 0 <= k < |items| && items[k] == c;
  }

  lemma {:induction false} ExtendsIsClosed(source: seq<Row>, anchor: Anchor, items: seq<Checkpoint>, prior: Option<Digest>, last: Checkpoint, now: int)
    ensures Extends(source, anchor, items, prior, last, now) <==>
      && Closed(items, prior)
      && forall c | c in items :: Verifies(source, anchor.operator, Some(anchor.store), Some(c), Some(anchor.Pinned()), now, c == last)
  {
    hide Verifies;
    if items != [] {
      ExtendsIsClosed(source, anchor, items[1..], Some(CheckpointDigest(items[0])), last, now);
      assert forall c :: c in items <==> c == items[0] || c in items[1..];
    }
  }

  /** The history a source supplies, or the candidate alone. */
  function Supplied(checkpoint: Checkpoint, supplied: seq<Checkpoint>): seq<Checkpoint> { if supplied == [] then [checkpoint] else supplied }

  /** From position `start` on the history continues the pinned checkpoint and verifies on a
      source that carries the pinned head, the candidate while it is fresh. */
  ghost predicate ContinuesFrom(source: seq<Row>, anchor: Anchor, history: seq<Checkpoint>, start: nat, checkpoint: Checkpoint, now: int) {
    forall k | start < k < |history| :: ContinuesAt(source, anchor, history, start, k, checkpoint, now)
  }

  ghost predicate ContinuesAt(source: seq<Row>, anchor: Anchor, history: seq<Checkpoint>, start: nat, k: int, checkpoint: Checkpoint, now: int)
    requires start < k < |history|
  {
    && history[k].body.prior == (if k == start + 1 then anchor.checkpointSha else Some(CheckpointDigest(history[k - 1])))
    && Verifies(source, anchor.operator, Some(anchor.store), Some(history[k]), Some(anchor.Pinned()), now, history[k] == checkpoint)
  }

  /** The candidate is at or past the pin, equal to it at the same position, and, when it comes
      alone, the pinned checkpoint itself or its successor. */
  predicate NoRollback(anchor: Anchor, c: Checkpoint, alone: bool) {
    && anchor.pinnedSequence <= c.body.sequence
    && (c.body.sequence == anchor.pinnedSequence ==> c.body.eventSha == anchor.pinnedHead)
    && (alone && anchor.checkpointSha.Some? ==>
          anchor.checkpointSha == if c.body.sequence == anchor.pinnedSequence then Some(CheckpointDigest(c)) else c.body.prior)
  }

  /** A source is accepted if and only if writes are open, its history ends in the fresh candidate and
      holds the pinned checkpoint, if there is one, everything after it continues it, and the candidate
      belongs to the genesis and does not go back. */
  lemma TransferExactly(source: seq<Row>, anchor: Anchor, checkpoint: Checkpoint, supplied: seq<Checkpoint>, now: int)
    ensures var history := Supplied(checkpoint, supplied);
      TransferOk(source, anchor, checkpoint, supplied, now) <==>
        && anchor.blockReason == None && history[|history| - 1] == checkpoint
        && (exists start: nat :: (if anchor.checkpointSha.Some? then FirstWith(history, anchor.checkpointSha.value, start) else start == 0)
              && ContinuesFrom(source, anchor, history, start, checkpoint, now))
        && Verifies(source, anchor.operator, Some(anchor.store), Some(checkpoint), Some(anchor.Pinned()), now, true)
        && |source| > 0 && source[0].sha == anchor.genesisSha && NoRollback(anchor, checkpoint, |supplied| <= 1)
  {
    hide Verifies, Extends, IndexOf, ContinuesFrom, Continuation, FirstWith;
    SourceNotEmpty(source, anchor, checkpoint, now);
    ContinuationExactly(source, anchor, checkpoint, supplied, now);
    hide Supplied;
  }

  /** The continuation is there and extends the pin exactly when the history does from the pinned checkpoint on. */
  lemma ContinuationExactly(source: seq<Row>, anchor: Anchor, checkpoint: Checkpoint, supplied: seq<Checkpoint>, now: int)
    ensures var history := Supplied(checkpoint, supplied);
      Continuation(anchor, checkpoint, supplied).Some?
        && Extends(source, anchor, Continuation(anchor, checkpoint, supplied).value, anchor.checkpointSha, checkpoint, now) <==>
      && history[|history| - 1] == checkpoint
      && exists start: nat :: (if anchor.checkpointSha.Some? then FirstWith(history, anchor.checkpointSha.value, start) else start == 0)
           && ContinuesFrom(source, anchor, history, start, checkpoint, now)
  {
    var history := Supplied(checkpoint, supplied);
    hide Verifies, Extends, IndexOf, ContinuesFrom;
    if history[|history| - 1] == checkpoint {
      if anchor.checkpointSha.Some? {
        PinnedContinuation(source, anchor, checkpoint, history, anchor.checkpointSha.value, now);
      } else {
        ItemsFrom(source, anchor, history, 0, checkpoint, now);
      }
    }
  }

  lemma PinnedContinuation(source: seq<Row>, anchor: Anchor, checkpoint: Checkpoint, history: seq<Checkpoint>, sha: Digest, now: int)
    requires anchor.checkpointSha == Some(sha)
    ensures IndexOf(history, sha).Some? ==> 0 <= IndexOf(history, sha).value < |history|
    ensures IndexOf(history, sha).Some? && Extends(source, anchor, history[IndexOf(history, sha).value + 1..], Some(sha), checkpoint, now) <==>
      exists start: nat :: FirstWith(history, sha, start) && ContinuesFrom(source, anchor, history, start, checkpoint, now)
  {
    IndexOfExactly(history, sha);
    hide Verifies, Extends, IndexOf, ContinuesFrom;
    if IndexOf(history, sha).Some? {
      ItemsFrom(source, anchor, history, IndexOf(history, sha).value, checkpoint, now);
    }
    forall start: nat | FirstWith(history, sha, start)
      ensures IndexOf(history, sha) == Some(start)
    {
      assert FirstWith(history, sha, IndexOf(history, sha).value);
    }
  }

  lemma SourceNotEmpty(source: seq<Row>, anchor: Anchor, checkpoint: Checkpoint, now: int)
    ensures Verifies(source, anchor.operator, Some(anchor.store), Some(checkpoint), Some(anchor.Pinned()), now, true) ==> |source| > 0
  {
    hide Accepted, KeysAfter;
  }

  lemma ItemsFrom(source: seq<Row>, anchor: Anchor, history: seq<Checkpoint>, start: nat, checkpoint: Checkpoint, now: int)
    requires start < |history|
    ensures Extends(source, anchor, history[start + 1..], anchor.checkpointSha, checkpoint, now) <==> ContinuesFrom(source, anchor, history, start, checkpoint, now)
  {
    var items := history[start + 1..];
    ExtendsExactly(source, anchor, items, anchor.checkpointSha, checkpoint, now);
    hide Verifies, Extends;
    assert forall k | 0 <= k < |items| :: items[k] == history[start + 1 + k];
    if ContinuesFrom(source, anchor, history, start, checkpoint, now) {
      forall k | 0 <= k < |items|
        ensures FollowsAt(items, anchor.checkpointSha, k)
        ensures Verifies(source, anchor.operator, Some(anchor.store), Some(items[k]), Some(anchor.Pinned()), now, items[k] == checkpoint)
      {
        var h := start + 1 + k;
        assert ContinuesAt(source, anchor, history, start, h, checkpoint, now);
        assert items[k] == history[h] && (k > 0 ==> items[k - 1] == history[h - 1]);
      }
    }
    if Extends(source, anchor, items, anchor.checkpointSha, checkpoint, now) {
      forall k | start < k < |history|
        ensures ContinuesAt(source, anchor, history, start, k, checkpoint, now)
      {
        assert items[k - start - 1] == history[k];
        assert FollowsAt(items, anchor.checkpointSha, k - start - 1);
      }
    }
  }

  // ---------- tickets ----------

  /** A ticket is prepared exactly for the anchor the transfer was verified against; it lasts a day. */
  lemma PreparesExactly(db: Db, transfer: Transfer, id: string, operation: string, now: int)
    ensures Prepare(db, transfer, id, operation, now).Ok? <==>
      db.anchor.Some? && db.anchor.value.blockReason == None && db.anchor.value.Digest() == transfer.priorAnchor && |operation| == 64 && id !in db.tickets
    ensures Prepare(db, transfer, id, operation, now).Ok? ==>
      var r := Prepare(db, transfer, id, operation, now).value;
      && r == db.(tickets := r.tickets) && id in r.tickets && r.tickets - {id} == db.tickets
      && r.tickets[id] == Ticket(CheckpointDigest(transfer.checkpoint), transfer.checkpoint, operation, transfer.priorAnchor,
                                 now + 24 * 60 * 60 * SECOND, Prepared)
  {
  }

  /** The anchor a move leaves at this checkpoint: trust domain and recovery key as they were. */
  predicate RepinnedAt(a: Anchor, b: Anchor, c: Checkpoint, now: int) {
    && b.operator == a.operator && b.store == a.store && b.genesisSha == a.genesisSha
    && b.recoveryKey == a.recoveryKey && b.recoveryPublicKey == a.recoveryPublicKey && b.blockReason == a.blockReason
    && b.pinnedSequence == c.body.sequence && b.pinnedHead == c.body.eventSha && b.keyStateSha == c.body.keyStateSha
    && b.checkpoint == Some(c) && b.certificate == Some(c.body.certificate) && b.updatedAt == now
  }

  /** A prepared ticket is finalized exactly while it lasts, by a claim equal to it, with the anchor
      still the one it was verified against. */
  lemma FinalizesExactly(db: Db, claim: TicketClaim, now: int)
    requires claim.id in db.tickets && db.tickets[claim.id].status == Prepared
    ensures var t := db.tickets[claim.id];
      Finalize(db, claim, now).Ok? <==>
        && now < t.expiresAt && claim.checkpointSha == t.checkpointSha && claim.operation == t.operation && claim.priorAnchor == t.priorAnchor
        && db.anchor.Some? && db.anchor.value.blockReason == None && db.anchor.value.Digest() == t.priorAnchor
    ensures Finalize(db, claim, now).Ok? ==>
      var t := db.tickets[claim.id]; var r := Finalize(db, claim, now).value;
      && r == db.(anchor := r.anchor, pins := r.pins, tickets := db.tickets[claim.id := t.(status := Finalized)])
      && r.anchor.Some? && RepinnedAt(db.anchor.value, r.anchor.value, t.checkpoint, now) && r.anchor.value.checkpointSha == Some(t.checkpointSha)
      && r.pins == if (exists i :: 0 <= i < |db.pins| && db.pins[i].sha == t.checkpointSha) then db.pins
                   else db.pins + [Pin(t.checkpointSha, t.checkpoint, now)]
  {
  }

  // ---------- local moves ----------

  /** A local checkpoint is pinned exactly when it verifies on the local ledger, in its window where asked, does not
      go back or differ at the pin, continues the pinned checkpoint and is not pinned yet. */
  lemma PinsLocallyExactly(db: Db, c: Checkpoint, now: int, enforceFreshness: bool)
    ensures PinLocal(db, c, now, enforceFreshness).Ok? <==>
      && db.anchor.Some? && db.anchor.value.blockReason == None
      && Verifies(db.ledger, db.anchor.value.operator, Some(db.anchor.value.store), Some(c), None, now, enforceFreshness)
      && c.body.genesisSha == db.anchor.value.genesisSha && c.body.sequence >= db.anchor.value.pinnedSequence
      && (c.body.sequence == db.anchor.value.pinnedSequence ==> c.body.eventSha == db.anchor.value.pinnedHead)
      && (db.anchor.value.checkpointSha.Some? ==> c.body.prior == db.anchor.value.checkpointSha)
      && forall i | 0 <= i < |db.pins| :: db.pins[i].sha != CheckpointDigest(c)
    ensures PinLocal(db, c, now, enforceFreshness).Ok? ==>
      var r := PinLocal(db, c, now, enforceFreshness).value;
      && r == db.(anchor := r.anchor, pins := db.pins + [Pin(CheckpointDigest(c), c, now)])
      && r.anchor.Some? && RepinnedAt(db.anchor.value, r.anchor.value, c, now) && r.anchor.value.checkpointSha == Some(CheckpointDigest(c))
  {
    hide Verifies;
  }

  /** The anchor follows the replayed head exactly in its own trust domain, with the pinned row on the local
      ledger and not past the head; the pinned checkpoint stays. */
  lemma AdvancesAnchorExactly(db: Db, chain: Chain, now: int)
    ensures Advance(db, chain, now).Ok? <==>
      && db.anchor.Some? && db.anchor.value.blockReason == None
      && chain.operator == db.anchor.value.operator && chain.store == db.anchor.value.store && chain.genesisSha == db.anchor.value.genesisSha
      && 1 <= db.anchor.value.pinnedSequence <= |db.ledger| && db.ledger[db.anchor.value.pinnedSequence - 1].sha == db.anchor.value.pinnedHead
      && db.anchor.value.pinnedSequence <= chain.headSequence
    ensures Advance(db, chain, now).Ok? ==>
      Advance(db, chain, now).value == db.(anchor := Some(db.anchor.value.(
        pinnedSequence := chain.headSequence, pinnedHead := chain.headSha, keyStateSha := chain.keyStateSha, updatedAt := now)))
  {
  }

  /** A recovery key given with its public key, active as one in the chain, or none. */
  predicate RecoveryHeld(keys: KeyMap, key: Option<KeyId>, publicKey: Option<Bytes>) {
    match (key, publicKey)
    case (None, None) => true
    case (Some(id), Some(pk)) => id in keys && keys[id].status == Active && keys[id].kind == Recovery && keys[id].publicKey == pk
    case _ => false
  }

  /** The history, or the checkpoint alone, is closed, without repetition, ends in the checkpoint and is not pinned yet. */
  ghost predicate FirstItemsOk(pins: seq<Pin>, items: seq<Checkpoint>, checkpoint: Option<Checkpoint>) {
    && (checkpoint.Some? ==> items != [] && items[|items| - 1] == checkpoint.value)
    && (forall k | 0 <= k < |items| :: FollowsAt(items, None, k))
    && (forall i, j | 0 <= i < j < |items| :: items[i] != items[j]) && (forall p, c | p in pins && c in items :: p.checkpoint != c)
  }

  /** First trust is set exactly where there is none, with such a recovery key and such a history. */
  lemma EstablishesExactly(db: Db, chain: Chain, recoveryKey: Option<KeyId>, recoveryPublicKey: Option<Bytes>,
                           checkpoint: Option<Checkpoint>, history: seq<Checkpoint>, now: int)
    ensures var items := if history != [] then history else if checkpoint.Some? then [checkpoint.value] else [];
      Establish(db, chain, recoveryKey, recoveryPublicKey, checkpoint, history, now).Ok? <==>
        db.anchor == None && RecoveryHeld(chain.keys, recoveryKey, recoveryPublicKey) && FirstItemsOk(db.pins, items, checkpoint)
  {
    hide RecoveryInChain, RecoveryHeld, Closed, PinsOf, FollowsAt;
    var items := if history != [] then history else if checkpoint.Some? then [checkpoint.value] else [];
    ClosedIsChained(items, None);
    HeldInChain(chain.keys, recoveryKey, recoveryPublicKey);
    assert FirstHistory(checkpoint, history) == items;
    assert (forall p | p in db.pins :: p.checkpoint !in items) <==> (forall p, c | p in db.pins && c in items :: p.checkpoint != c);
  }

  lemma HeldInChain(keys: KeyMap, key: Option<KeyId>, publicKey: Option<Bytes>)
    ensures RecoveryInChain(keys, key, publicKey) == RecoveryHeld(keys, key, publicKey)
  {
  }

  /** It then names the chain's domain and head and that recovery key, and pins that history in order. */
  lemma EstablishedIs(db: Db, chain: Chain, recoveryKey: Option<KeyId>, recoveryPublicKey: Option<Bytes>,
                      checkpoint: Option<Checkpoint>, history: seq<Checkpoint>, now: int)
    requires Establish(db, chain, recoveryKey, recoveryPublicKey, checkpoint, history, now).Ok?
    ensures var r := Establish(db, chain, recoveryKey, recoveryPublicKey, checkpoint, history, now).value;
      && r == db.(anchor := r.anchor, pins := r.pins) && r.anchor.Some?
      && r.anchor.value.operator == chain.operator && r.anchor.value.store == chain.store && r.anchor.value.genesisSha == chain.genesisSha
      && r.anchor.value.recoveryKey == recoveryKey && r.anchor.value.recoveryPublicKey == recoveryPublicKey && r.anchor.value.blockReason == None
      && r.anchor.value.pinnedSequence == chain.headSequence && r.anchor.value.pinnedHead == chain.headSha
      && r.anchor.value.keyStateSha == chain.keyStateSha && r.anchor.value.checkpoint == checkpoint
      && r.anchor.value.checkpointSha == (if checkpoint.Some? then Some(CheckpointDigest(checkpoint.value)) else None)
      && |r.pins| == |db.pins| + |FirstHistory(checkpoint, history)| && r.pins[..|db.pins|] == db.pins
      && forall k | |db.pins| <= k < |r.pins| ::
           var c := FirstHistory(checkpoint, history)[k - |db.pins|]; r.pins[k] == Pin(CheckpointDigest(c), c, now)
  {
    hide RecoveryInChain, Closed, Distinct, FirstHistory;
  }
}
