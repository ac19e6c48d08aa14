/** Compare-and-swap of the trust anchor over every interleaving of transfer
    tickets with local pins, head advances, ledger growth and conflict retention. */
module TrustRuns {
  import opened Outcomes
  import opened AuthorityData
  import opened AuthorityLedger
  import opened AuthorityTrust

  datatype Step =
    /** A source verified against an anchor read earlier, then a ticket prepared. */
    | PrepareStep(source: seq<Row>, local: Anchor, checkpoint: Checkpoint, supplied: seq<Checkpoint>, verifiedAt: int,
                  id: string, operation: string, now: int)
    | FinalizeStep(claim: TicketClaim, now: int)
    | PinStep(checkpoint: Checkpoint, enforceFreshness: bool, now: int)
    | AdvanceStep(chain: Chain, now: int)
    | RetainStep(proofId: string, conflictClass: string, candidateSha: Digest, now: int)
    | GrowStep(row: Row)

  /** A verification that fails prepares nothing. */
  function PrepareVerified(db: Db, s: Step): Result<Db>
    requires s.PrepareStep?
  {
    if !(TransferOk(s.source, s.local, s.checkpoint, s.supplied, s.verifiedAt)) then Rejected else
    Prepare(db, TransferOf(s.source, s.local, s.checkpoint), s.id, s.operation, s.now)
  }

  function Attempt(db: Db, s: Step): Result<Db> {
    match s
    case PrepareStep(_, _, _, _, _, _, _, _) => PrepareVerified(db, s)
    case FinalizeStep(claim, now) => Finalize(db, claim, now)
    case PinStep(c, enforceFreshness, now) => PinLocal(db, c, now, enforceFreshness)
    case AdvanceStep(chain, now) => Advance(db, chain, now)
    case RetainStep(id, conflictClass, sha, now) => Retain(db, id, conflictClass, sha, now)
    case GrowStep(row) => Ok(db.(ledger := db.ledger + [row]))
  }

  /** A refused step rolls back. */
  function After(db: Db, s: Step): Db {
    var r := Attempt(db, s);
    if r.Ok? then r.value else db
  }

  function Run(db: Db, steps: seq<Step>): Db {
    if steps == [] then db
    else After(Run(db, steps[..|steps| - 1]), steps[|steps| - 1])
  }

  /** The step at position j prepared this ticket, after a successful verification. */
  ghost predicate PreparedBy(db: Db, steps: seq<Step>, j: int, id: string, t: Ticket) {
    && 0 <= j < |steps|
    && var s := steps[j];
    && s.PrepareStep? && s.id == id
    && PrepareVerified(Run(db, steps[..j]), s).Ok?
    && t.checkpoint == s.checkpoint && t.checkpointSha == CheckpointDigest(s.checkpoint)
    && t.priorAnchor == s.local.Digest()
  }

  lemma PreparedByExtends(db: Db, steps: seq<Step>, s: Step, j: int, id: string, t: Ticket)
    requires PreparedBy(db, steps, j, id, t)
    ensures PreparedBy(db, steps + [s], j, id, t)
  {
    hide Run, PrepareVerified;
    assert (steps + [s])[..j] == steps[..j];
  }

  /** One step keeps a ticket up to its status, or has just prepared it. */
  lemma TicketStep(db: Db, s: Step, id: string)
    requires id in After(db, s).tickets
    ensures var t := After(db, s).tickets[id];
      || (id in db.tickets && t.(status := Prepared) == db.tickets[id].(status := Prepared))
      || (&& s.PrepareStep? && s.id == id && PrepareVerified(db, s).Ok?
          && t.checkpoint == s.checkpoint && t.checkpointSha == CheckpointDigest(s.checkpoint)
          && t.priorAnchor == s.local.Digest())
  {
    hide TransferOk, Verifies;
  }

  /** Every ticket of every run was prepared by an earlier step of that run. */
  lemma {:induction false} EveryTicketTraced(db: Db, steps: seq<Step>, id: string) returns (j: int)
    requires db.tickets == map[]
    requires id in Run(db, steps).tickets
    ensures PreparedBy(db, steps, j, id, Run(db, steps).tickets[id])
  {
    var n := |steps| - 1;
    var init, s := steps[..n], steps[n];
    assert steps == init + [s];
    TicketStep(Run(db, init), s, id);
    var t := Run(db, steps).tickets[id];
    if id in Run(db, init).tickets && t.(status := Prepared) == Run(db, init).tickets[id].(status := Prepared) {
      j := EveryTicketTraced(db, init, id);
      PreparedByExtends(db, init, s, j, id, t);
    } else {
      j := n;
    }
  }

  /** The effect of a successful first finalization, for any state. */
  lemma FirstFinalization(db: Db, claim: TicketClaim, now: int)
    requires claim.id in db.tickets && db.tickets[claim.id].status == Prepared
    requires Finalize(db, claim, now).Ok?
    ensures var t := db.tickets[claim.id]; var after := Finalize(db, claim, now).value;
      && db.anchor.Some? && !db.anchor.value.Blocked()
      && db.anchor.value.Digest() == t.priorAnchor == claim.priorAnchor
      && now < t.expiresAt
      && after.anchor.Some? && after.anchor.value.Pinned() == PinnedHead(t.checkpoint.body.sequence, t.checkpoint.body.eventSha)
      && after.anchor.value.checkpointSha == Some(t.checkpointSha)
      && after.tickets[claim.id].status == Finalized
      && after.ledger == db.ledger && after.proofs == db.proofs && after.keyRows == db.keyRows
  {
  }

  lemma PreparedIsVerified(db: Db, s: Step)
    requires s.PrepareStep? && PrepareVerified(db, s).Ok?
    ensures TransferOk(s.source, s.local, s.checkpoint, s.supplied, s.verifiedAt)
  {
  }

  /** What a verified transfer establishes about its source. */
  lemma TransferFacts(source: seq<Row>, anchor: Anchor, c: Checkpoint, supplied: seq<Checkpoint>, now: int)
    requires TransferOk(source, anchor, c, supplied, now)
    ensures Accepted(source, anchor.operator)
    ensures PinOk(source, anchor.Pinned())
    ensures PinOk(source, PinnedHead(c.body.sequence, c.body.eventSha))
    ensures anchor.pinnedSequence <= c.body.sequence
    ensures source[0].sha == anchor.genesisSha
  {
  }

  /** Compare-and-swap: in every run, a first finalization that succeeds finds the
      anchor equal to the one its ticket was verified against, and both the old
      and the new pin lie on the source ledger accepted then, in order. */
  lemma FinalizationIsCompareAndSwap(db: Db, steps: seq<Step>, claim: TicketClaim, now: int) returns (j: int)
    requires db.tickets == map[]
    requires var s := Run(db, steps);
      claim.id in s.tickets && s.tickets[claim.id].status == Prepared && Finalize(s, claim, now).Ok?
    ensures 0 <= j < |steps| && steps[j].PrepareStep? && steps[j].id == claim.id
    ensures var p := steps[j]; var before := Run(db, steps).anchor; var after := Finalize(Run(db, steps), claim, now).value.anchor;
      && TransferOk(p.source, p.local, p.checkpoint, p.supplied, p.verifiedAt)
      && before.Some? && after.Some?
      && before.value.Digest() == p.local.Digest()
      && Accepted(p.source, before.value.operator)
      && PinOk(p.source, before.value.Pinned())
      && PinOk(p.source, after.value.Pinned())
      && before.value.pinnedSequence <= after.value.pinnedSequence
      && after.value.checkpointSha == Some(CheckpointDigest(p.checkpoint))
      && after.value.genesisSha == before.value.genesisSha == p.source[0].sha
  {
    hide Run, TransferOk, Accepted, PrepareVerified;
    var s := Run(db, steps);
    j := EveryTicketTraced(db, steps, claim.id);
    FirstFinalization(s, claim, now);
    var p := steps[j];
    PreparedIsVerified(Run(db, steps[..j]), p);
    TransferFacts(p.source, p.local, p.checkpoint, p.supplied, p.verifiedAt);
  }

  /** One step keeps a finalized ticket's claim and status. */
  lemma FinalizedStays(db: Db, s: Step, id: string)
    requires id in db.tickets && db.tickets[id].status == Finalized
    ensures id in After(db, s).tickets && After(db, s).tickets[id] == db.tickets[id]
  {
    hide TransferOk, Verifies, Accepted;
  }

  lemma {:induction false} FinalizedForever(db: Db, steps: seq<Step>, i: nat, k: nat, id: string)
    requires i <= k <= |steps| && id in Run(db, steps[..i]).tickets && Run(db, steps[..i]).tickets[id].status == Finalized
    ensures id in Run(db, steps[..k]).tickets && Run(db, steps[..k]).tickets[id].status == Finalized
    decreases k - i
  {
    hide After;
    if i < k {
      FinalizedForever(db, steps, i, k - 1, id);
      FinalizedStays(Run(db, steps[..k - 1]), steps[k - 1], id);
      assert steps[..k][..k - 1] == steps[..k - 1];
    }
  }

  /** In every run a ticket moves the anchor at most once: after a step that finalized it,
      no later finalization of it changes anything, whatever happened in between; right
      after that step it is answered from the anchor. */
  lemma FinalizedOnce(db: Db, steps: seq<Step>, i: nat, k: nat, claim: TicketClaim, now: int, again: TicketClaim, later: int)
    requires i < k <= |steps| && steps[i] == FinalizeStep(claim, now) && Finalize(Run(db, steps[..i]), claim, now).Ok?
    requires again.id == claim.id
    ensures After(Run(db, steps[..k]), FinalizeStep(again, later)) == Run(db, steps[..k])
    ensures k == i + 1 && again == claim ==> Finalize(Run(db, steps[..k]), again, later) == Ok(Run(db, steps[..k]))
  {
    var before := Run(db, steps[..i]);
    assert steps[..i + 1][..i] == steps[..i];
    assert Run(db, steps[..i + 1]) == After(before, steps[i]);
    FinalizesTicket(before, claim, now, later);
    hide After;
    FinalizedForever(db, steps, i + 1, k, claim.id);
    RefinalizingChangesNothing(Run(db, steps[..k]), again, later);
  }

  lemma FinalizesTicket(db: Db, claim: TicketClaim, now: int, later: int)
    requires Finalize(db, claim, now).Ok?
    ensures var after := Finalize(db, claim, now).value;
      && claim.id in after.tickets && after.tickets[claim.id].status == Finalized
      && Finalize(after, claim, later) == Ok(after)
  {
  }

  lemma RefinalizingChangesNothing(db: Db, claim: TicketClaim, now: int)
    requires claim.id in db.tickets && db.tickets[claim.id].status == Finalized
    ensures After(db, FinalizeStep(claim, now)) == db
  {
  }

  /** A second ticket verified against the same anchor loses the race: after one
      finalization that moves the pin or the checkpoint, the other is refused. */
  lemma OnlyOneRacingTicketWins(db: Db, a: TicketClaim, b: TicketClaim, now: int, later: int)
    requires a.id != b.id && a.id in db.tickets && db.tickets[a.id].status == Prepared
    requires a.priorAnchor == b.priorAnchor && b.id in db.tickets && db.tickets[b.id].status == Prepared
    requires Finalize(db, a, now).Ok?
    requires a.priorAnchor.checkpointSha != Some(a.checkpointSha)
    ensures Finalize(Finalize(db, a, now).value, b, later).Rejected?
  {
    FirstFinalization(db, a, now);
  }

  /** While a conflict is retained no ticket can be prepared or first finalized and the pin
      stays, whatever is tried. */
  lemma {:induction false} BlockedAnchorStays(db: Db, steps: seq<Step>)
    requires db.anchor.Some? && db.anchor.value.Blocked()
    ensures var r := Run(db, steps);
      r.anchor.Some? && r.anchor.value.Blocked() && r.anchor.value.Pinned() == db.anchor.value.Pinned() && r.tickets == db.tickets
  {
    hide After;
    if steps != [] {
      BlockedAnchorStays(db, steps[..|steps| - 1]);
      BlockedStep(Run(db, steps[..|steps| - 1]), steps[|steps| - 1]);
    }
  }

  lemma BlockedStep(db: Db, s: Step)
    requires db.anchor.Some? && db.anchor.value.Blocked()
    ensures var r := After(db, s);
      r.anchor.Some? && r.anchor.value.Blocked() && r.anchor.value.Pinned() == db.anchor.value.Pinned() && r.tickets == db.tickets
  {
  }

  /** One more step of a run keeps the anchor and does not move the pin back. */
  lemma PinStepMonotone(db: Db, steps: seq<Step>, s: Step)
    requires db.tickets == map[] && Run(db, steps).anchor.Some?
    ensures After(Run(db, steps), s).anchor.Some?
    ensures Run(db, steps).anchor.value.pinnedSequence <= After(Run(db, steps), s).anchor.value.pinnedSequence
  {
    hide Run, TransferOk, Verifies, Accepted;
    var before := Run(db, steps);
    match s
    case FinalizeStep(claim, now) =>
      if Finalize(before, claim, now).Ok? && before.tickets[claim.id].status == Prepared {
        var _ := FinalizationIsCompareAndSwap(db, steps, claim, now);
      }
    case PrepareStep(_, _, _, _, _, _, _, _) =>
      assert After(before, s).anchor == before.anchor;
    case PinStep(_, _, _) =>
    case AdvanceStep(_, _) =>
    case RetainStep(_, _, _, _) =>
    case GrowStep(_) =>
  }

  /** The pinned sequence never decreases between any two moments of any run. */
  lemma {:induction false} PinMonotone(db: Db, steps: seq<Step>, i: nat, k: nat)
    requires db.tickets == map[] && i <= k <= |steps| && Run(db, steps[..i]).anchor.Some?
    ensures Run(db, steps[..k]).anchor.Some?
    ensures Run(db, steps[..i]).anchor.value.pinnedSequence <= Run(db, steps[..k]).anchor.value.pinnedSequence
    decreases k - i
  {
    hide After;
    if i < k {
      PinMonotone(db, steps, i, k - 1);
      PinStepMonotone(db, steps[..k - 1], steps[k - 1]);
      assert steps[..k][..k - 1] == steps[..k - 1];
    }
  }
}
