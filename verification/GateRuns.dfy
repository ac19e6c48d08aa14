/** At-most-once authority over every interleaving of preparation, approval,
    execution and the reads and writes of the ceremonies of other processes. */
module GateRuns {
  import opened Outcomes
  import opened AuthorityData
  import opened AuthorityLedger
  import opened AuthorityTrust
  import opened AuthorityService
  import opened ServiceRuns
  import opened SplitCeremonies
  import opened CeremonyRules
  import opened MutationGate

  datatype Step =
    | FreezeStep(m: Mutation, operationId: string, now: int)
    | ApproveStep(request: Request, nonce: string, ttl: int, now: int)
    | ExecuteStep(m: Mutation, token: Token, provenanceId: string, now: int)
    | CeremonyHalf(half: SplitStep)

  /** The gate's tables over the machine, with the ceremonies that have read and not yet written. */
  datatype GateSystem = GateSystem(gate: Gate, open: map<nat, Reading>)
  {
    function Ceremonies(): System { System(gate.db, open) }
  }

  ghost function Attempted(g: Gate, op: OperatorId, s: Step): Result<Gate>
    requires !s.CeremonyHalf?
  {
    match s
    case FreezeStep(m, operationId, now) => Freeze(g, op, m, operationId, now)
    case ApproveStep(request, nonce, ttl, now) =>
      var r :- Approve(g, op, request, nonce, ttl, now);
      Ok(r.0)
    case ExecuteStep(m, token, provenanceId, now) => Execute(g, op, m, token, provenanceId, now)
  }

  ghost function After(s: GateSystem, op: OperatorId, step: Step): GateSystem {
    if step.CeremonyHalf? then
      var next := SplitNext(s.Ceremonies(), op, step.half);
      GateSystem(s.gate.(db := next.db), next.open)
    else
      var r := Attempted(s.gate, op, step);
      s.(gate := if r.Ok? then r.value else s.gate)
  }

  ghost function GateRun(g: GateSystem, op: OperatorId, steps: seq<Step>): GateSystem {
    if steps == [] then g
    else After(GateRun(g, op, steps[..|steps| - 1]), op, steps[|steps| - 1])
  }

  /** Nothing has been prepared, approved or executed. */
  predicate Untouched(g: Gate) {
    g.prepared == map[] && g.challenges == map[] && g.provenance == map[] && g.executions == []
  }

  // ---------- what every state satisfies ----------

  /** Frozen content is what its request's digests commit to. */
  predicate FrozenOk(p: FrozenMutation, id: string) {
    && p.request.operationId == id
    && p.request.payload == TextSha(p.intent) && p.request.priorState == TextSha(p.priorState)
    && p.request.execution == TextSha(p.fields)
    && (p.status == Executed <==> p.provenance.Some?)
  }

  /** A provenance row, its consumed challenge and its executed mutation name each other. */
  predicate ProvenanceOk(g: Gate, pid: string) {
    && pid in g.provenance
    && var v := g.provenance[pid];
    && v.challenge.nonce in g.challenges && g.challenges[v.challenge.nonce] == Issued(v.challenge, Some(pid))
    && v.operationId == v.challenge.request.operationId
    && v.operationId in g.prepared && g.prepared[v.operationId].provenance == Some(pid)
    && v.challenge.request == g.prepared[v.operationId].request
    && v.ledgerSequence == v.challenge.ledgerSequence
  }

  predicate ExecutionOk(g: Gate, x: Execution) {
    && x.provenanceId in g.provenance && g.provenance[x.provenanceId].operationId == x.operationId
    && g.provenance[x.provenanceId].ledgerSequence == |x.ledger|
    && x.operationId in g.prepared
    && var p := g.prepared[x.operationId];
    && p.provenance == Some(x.provenanceId)
    && x.command == p.command && x.intent == p.intent && x.fields == p.fields
  }

  /** Every frozen operation is well formed and, once executed, has its provenance row. */
  predicate PreparedLinked(g: Gate) {
    && (forall id | id in g.prepared :: FrozenOk(g.prepared[id], id))
    && (forall id | id in g.prepared && g.prepared[id].provenance.Some? :: g.prepared[id].provenance.value in g.provenance
          && g.provenance[g.prepared[id].provenance.value].operationId == id)
  }

  /** Every consumed challenge has its provenance row. */
  predicate ChallengesLinked(g: Gate) {
    && (forall n | n in g.challenges :: g.challenges[n].challenge.nonce == n)
    && (forall n | n in g.challenges && g.challenges[n].consumedBy.Some? ::
          g.challenges[n].consumedBy.value in g.provenance
          && g.provenance[g.challenges[n].consumedBy.value].challenge.nonce == n)
  }

  /** Executions and provenance rows correspond, and no operation executed twice. */
  ghost predicate ExecutionsLinked(g: Gate) {
    && (forall i | 0 <= i < |g.executions| :: ExecutionOk(g, g.executions[i]))
    && (forall i, j | 0 <= i < j < |g.executions| :: g.executions[i].operationId != g.executions[j].operationId)
    && (forall pid | pid in g.provenance :: exists i :: 0 <= i < |g.executions| && g.executions[i].provenanceId == pid)
  }

  ghost predicate Consistent(g: Gate) {
    && PreparedLinked(g)
    && ChallengesLinked(g)
    && (forall pid | pid in g.provenance :: ProvenanceOk(g, pid))
    && ExecutionsLinked(g)
  }

  lemma FreezeKeeps(g: Gate, op: OperatorId, m: Mutation, operationId: string, now: int)
    requires Consistent(g) && Freeze(g, op, m, operationId, now).Ok?
    ensures Consistent(Freeze(g, op, m, operationId, now).value)
  {
    var r := Freeze(g, op, m, operationId, now).value;
    forall pid | pid in r.provenance
      ensures ProvenanceOk(r, pid)
    {
      assert ProvenanceOk(g, pid);
    }
    forall i | 0 <= i < |r.executions|
      ensures ExecutionOk(r, r.executions[i])
    {
      assert ExecutionOk(g, g.executions[i]);
    }
  }

  lemma IssueKeeps(g: Gate, r: Gate, nonce: string, c: Challenge)
    requires Consistent(g) && nonce !in g.challenges && c.nonce == nonce
    requires r == g.(challenges := g.challenges[nonce := Issued(c, None)])
    ensures Consistent(r)
  {
    forall pid | pid in r.provenance
      ensures ProvenanceOk(r, pid)
    {
      assert ProvenanceOk(g, pid);
    }
    forall i | 0 <= i < |r.executions|
      ensures ExecutionOk(r, r.executions[i])
    {
      assert ExecutionOk(g, g.executions[i]);
    }
  }

  /** What a successful execution has found and written. */
  lemma ExecuteFacts(g: Gate, r: Gate, op: OperatorId, m: Mutation, token: Token, provenanceId: string, now: int)
    requires Execute(g, op, m, token, provenanceId, now) == Ok(r)
    ensures var c := token.challenge; var id := c.request.operationId;
      && id in g.prepared && g.prepared[id].status == Pending && c.request == g.prepared[id].request
      && g.prepared[id].intent == m.intent && g.prepared[id].priorState == m.priorState && g.prepared[id].command == m.command
      && c.nonce in g.challenges && g.challenges[c.nonce] == Issued(c, None)
      && c.ledgerSequence == |g.db.ledger|
      && provenanceId !in g.provenance
      && g.db.anchor.Some? && !g.db.anchor.value.Blocked()
      && r == g.(
        provenance := g.provenance[provenanceId := Provenance(id, c, |g.db.ledger|)],
        challenges := g.challenges[c.nonce := Issued(c, Some(provenanceId))],
        prepared := g.prepared[id := g.prepared[id].(status := Executed, provenance := Some(provenanceId))],
        executions := g.executions + [Execution(id, g.prepared[id].command, g.prepared[id].intent, g.prepared[id].fields, g.db.ledger, provenanceId)])
  {
  }

  /** The tables after executing frozen operation `id` with challenge `c`. */
  ghost predicate Executes(g: Gate, r: Gate, c: Challenge, id: string, pid: string) {
    && id == c.request.operationId && id in g.prepared && g.prepared[id].status == Pending
    && c.request == g.prepared[id].request
    && c.nonce in g.challenges && g.challenges[c.nonce] == Issued(c, None)
    && c.ledgerSequence == |g.db.ledger|
    && pid !in g.provenance
    && r.provenance == g.provenance[pid := Provenance(id, c, |g.db.ledger|)]
    && r.challenges == g.challenges[c.nonce := Issued(c, Some(pid))]
    && r.prepared == g.prepared[id := g.prepared[id].(status := Executed, provenance := Some(pid))]
    && r.executions == g.executions + [Execution(id, g.prepared[id].command, g.prepared[id].intent, g.prepared[id].fields, g.db.ledger, pid)]
  }

  lemma ExecuteKeepsProvenance(g: Gate, r: Gate, c: Challenge, id: string, pid: string, q: string)
    requires Executes(g, r, c, id, pid) && FrozenOk(g.prepared[id], id)
    requires q in r.provenance && (q != pid ==> ProvenanceOk(g, q))
    ensures ProvenanceOk(r, q)
  {
  }

  lemma ExecuteKeepsExecution(g: Gate, r: Gate, c: Challenge, id: string, pid: string, i: nat)
    requires Executes(g, r, c, id, pid) && FrozenOk(g.prepared[id], id)
    requires i < |r.executions| && (i < |g.executions| ==> ExecutionOk(g, g.executions[i]))
    ensures ExecutionOk(r, r.executions[i])
    ensures i < |g.executions| ==> r.executions[i].operationId != id
  {
  }

  lemma ExecuteKeepsKeys(g: Gate, r: Gate, c: Challenge, id: string, pid: string)
    requires PreparedLinked(g) && ChallengesLinked(g) && Executes(g, r, c, id, pid)
    ensures PreparedLinked(r) && ChallengesLinked(r)
  {
    assert FrozenOk(g.prepared[id], id);
  }

  lemma ExecuteKeepsExecutions(g: Gate, r: Gate, c: Challenge, id: string, pid: string)
    requires ExecutionsLinked(g) && Executes(g, r, c, id, pid) && FrozenOk(g.prepared[id], id)
    ensures ExecutionsLinked(r)
  {
    hide ExecutionOk, FrozenOk;
    forall i | 0 <= i < |r.executions|
      ensures ExecutionOk(r, r.executions[i])
      ensures i < |g.executions| ==> r.executions[i].operationId != id
    {
      ExecuteKeepsExecution(g, r, c, id, pid, i);
    }
    forall q | q in r.provenance
      ensures exists i :: 0 <= i < |r.executions| && r.executions[i].provenanceId == q
    {
      if q == pid {
        assert r.executions[|g.executions|].provenanceId == q;
      } else {
        var i :| 0 <= i < |g.executions| && g.executions[i].provenanceId == q;
        assert r.executions[i].provenanceId == q;
      }
    }
  }

  lemma ExecuteKeepsAll(g: Gate, r: Gate, c: Challenge, id: string, pid: string)
    requires Consistent(g) && Executes(g, r, c, id, pid)
    ensures Consistent(r)
  {
    assert FrozenOk(g.prepared[id], id);
    hide ExecutionOk, ProvenanceOk, FrozenOk, ExecutionsLinked;
    ExecuteKeepsKeys(g, r, c, id, pid);
    ExecuteKeepsExecutions(g, r, c, id, pid);
    forall q | q in r.provenance
      ensures ProvenanceOk(r, q)
    {
      ExecuteKeepsProvenance(g, r, c, id, pid, q);
    }
  }

  lemma ExecuteKeeps(g: Gate, r: Gate, op: OperatorId, m: Mutation, token: Token, provenanceId: string, now: int)
    requires Consistent(g) && Execute(g, op, m, token, provenanceId, now) == Ok(r)
    ensures Consistent(r)
  {
    hide Execute, Consistent;
    ExecuteFacts(g, r, op, m, token, provenanceId, now);
    ExecuteKeepsAll(g, r, token.challenge, token.challenge.request.operationId, provenanceId);
  }

  lemma CeremonyHalfKeeps(g: Gate, r: Gate)
    requires Consistent(g) && r == g.(db := r.db)
    ensures Consistent(r)
  {
    forall pid | pid in r.provenance
      ensures ProvenanceOk(r, pid)
    {
      assert ProvenanceOk(g, pid);
    }
    forall i | 0 <= i < |r.executions|
      ensures ExecutionOk(r, r.executions[i])
    {
      assert ExecutionOk(g, g.executions[i]);
    }
  }

  lemma StepKeeps(s: GateSystem, op: OperatorId, step: Step)
    requires Consistent(s.gate)
    ensures Consistent(After(s, op, step).gate)
  {
    hide Consistent, SplitNext, ReconciledKey, Freeze, Execute;
    match step
    case FreezeStep(m, operationId, now) =>
      if Freeze(s.gate, op, m, operationId, now).Ok? {
        FreezeKeeps(s.gate, op, m, operationId, now);
      }
    case ApproveStep(request, nonce, ttl, now) =>
      var r := Approve(s.gate, op, request, nonce, ttl, now);
      if r.Ok? {
        IssueKeeps(s.gate, r.value.0, nonce, r.value.1.challenge);
      }
    case ExecuteStep(m, token, provenanceId, now) =>
      var r := Execute(s.gate, op, m, token, provenanceId, now);
      if r.Ok? {
        ExecuteKeeps(s.gate, r.value, op, m, token, provenanceId, now);
      }
    case CeremonyHalf(_) =>
      CeremonyHalfKeeps(s.gate, After(s, op, step).gate);
  }

  /** Every run keeps the tables consistent, whatever ceremonies do in between: each
      operation executes at most once, each provenance row matches exactly one consumed
      challenge and one execution, and the executed intent and fields are those frozen
      at preparation. */
  lemma {:induction false} AtMostOnce(g: GateSystem, op: OperatorId, steps: seq<Step>)
    requires Untouched(g.gate)
    ensures Consistent(GateRun(g, op, steps).gate)
  {
    hide Consistent, After;
    if steps == [] {
      EmptyIsConsistent(g.gate);
    } else {
      var n := |steps| - 1;
      AtMostOnce(g, op, steps[..n]);
      StepKeeps(GateRun(g, op, steps[..n]), op, steps[n]);
    }
  }

  lemma EmptyIsConsistent(g: Gate)
    requires Untouched(g)
    ensures Consistent(g)
  {
  }

  /** In a consistent state two provenance rows never share a nonce or an operation. */
  lemma ProvenanceIsOneToOne(g: Gate, p: string, q: string)
    requires Consistent(g) && p in g.provenance && q in g.provenance
    requires g.provenance[p].challenge.nonce == g.provenance[q].challenge.nonce || g.provenance[p].operationId == g.provenance[q].operationId
    ensures p == q
  {
    assert ProvenanceOk(g, p) && ProvenanceOk(g, q);
  }

  // ---------- the gate leaves the ceremonies alone ----------

  /** The ceremony halves of a run. */
  function Halves(steps: seq<Step>): seq<SplitStep> {
    if steps == [] then []
    else
      var n := |steps| - 1;
      Halves(steps[..n]) + if steps[n].CeremonyHalf? then [steps[n].half] else []
  }

  lemma GateLeavesDb(g: Gate, op: OperatorId, s: Step)
    requires !s.CeremonyHalf? && Attempted(g, op, s).Ok?
    ensures Attempted(g, op, s).value.db == g.db
  {
    hide ReconciledKey, TokenGood, StillFrozen;
  }

  /** The machine and the open ceremonies are those of the ceremony halves alone. */
  lemma {:induction false} CeremoniesIgnoreTheGate(g: GateSystem, op: OperatorId, steps: seq<Step>)
    requires g.open == map[]
    ensures GateRun(g, op, steps).Ceremonies() == SplitRun(g.gate.db, op, Halves(steps))
  {
    hide Attempted, SplitNext;
    if steps != [] {
      var n := |steps| - 1;
      CeremoniesIgnoreTheGate(g, op, steps[..n]);
      var before := GateRun(g, op, steps[..n]);
      if steps[n].CeremonyHalf? {
        assert Halves(steps)[..|Halves(steps)| - 1] == Halves(steps[..n]);
      } else {
        assert Halves(steps) == Halves(steps[..n]);
        if Attempted(before.gate, op, steps[n]).Ok? {
          GateLeavesDb(before.gate, op, steps[n]);
        }
      }
    }
  }

  /** The ceremony invariant holds along a run unless an adjudication overrides one before it. */
  lemma GateRunsCoherent(g: GateSystem, op: OperatorId, steps: seq<Step>)
    requires Coherent(g.gate.db, op) && DecisionsInLedger(g.gate.db.ledger, g.gate.db.proofs) && g.open == map[]
    requires NeverOverrides(g.gate.db, op, Halves(steps))
    ensures Coherent(GateRun(g, op, steps).gate.db, op)
  {
    hide Coherent, NeverOverrides, SplitRun, GateRun, DecisionsInLedger;
    CeremoniesIgnoreTheGate(g, op, steps);
    HoldKeptExactly(g.gate.db, op, Halves(steps));
    assert Halves(steps)[..|Halves(steps)|] == Halves(steps);
  }

  // ---------- the head at execution is the head at approval ----------

  /** The step at position j issued this challenge. */
  ghost predicate IssuedBy(g: GateSystem, op: OperatorId, steps: seq<Step>, j: int, c: Challenge) {
    && 0 <= j < |steps|
    && var s := steps[j];
    && s.ApproveStep? && s.nonce == c.nonce && s.request == c.request
    && Approve(GateRun(g, op, steps[..j]).gate, op, s.request, s.nonce, s.ttl, s.now).Ok?
    && Approve(GateRun(g, op, steps[..j]).gate, op, s.request, s.nonce, s.ttl, s.now).value.1.challenge == c
  }

  /** One step keeps the challenge under a nonce, or has just issued it. */
  lemma ChallengeStep(s: GateSystem, op: OperatorId, step: Step, nonce: string)
    requires nonce in After(s, op, step).gate.challenges
    ensures var c := After(s, op, step).gate.challenges[nonce].challenge;
      || (nonce in s.gate.challenges && s.gate.challenges[nonce].challenge == c)
      || (step.ApproveStep? && step.nonce == nonce && Approve(s.gate, op, step.request, step.nonce, step.ttl, step.now).Ok?
          && Approve(s.gate, op, step.request, step.nonce, step.ttl, step.now).value.1.challenge == c
          && c.nonce == nonce && c.request == step.request)
  {
    hide ReconciledKey, SplitNext, TokenGood, Execute;
    match step
    case ExecuteStep(m, token, provenanceId, now) =>
      var r := Execute(s.gate, op, m, token, provenanceId, now);
      if r.Ok? {
        ExecuteFacts(s.gate, r.value, op, m, token, provenanceId, now);
      }
    case FreezeStep(_, _, _) =>
    case ApproveStep(_, _, _, _) =>
    case CeremonyHalf(_) =>
  }

  lemma {:induction false} EveryChallengeIssued(g: GateSystem, op: OperatorId, steps: seq<Step>, nonce: string) returns (j: int)
    requires Untouched(g.gate) && nonce in GateRun(g, op, steps).gate.challenges
    ensures IssuedBy(g, op, steps, j, GateRun(g, op, steps).gate.challenges[nonce].challenge)
    ensures GateRun(g, op, steps).gate.challenges[nonce].challenge.nonce == nonce
  {
    hide Approve, After;
    var n := |steps| - 1;
    var init, s := steps[..n], steps[n];
    ChallengeStep(GateRun(g, op, init), op, s, nonce);
    var c := GateRun(g, op, steps).gate.challenges[nonce].challenge;
    if nonce in GateRun(g, op, init).gate.challenges && GateRun(g, op, init).gate.challenges[nonce].challenge == c {
      j := EveryChallengeIssued(g, op, init, nonce);
      assert steps[..j] == init[..j];
    } else {
      j := n;
    }
  }

  /** Whatever state a write finds, it appends to the ledger or leaves it alone. */
  lemma WritesOnlyAppend(seen: Db, db: Db, op: OperatorId, c: Ceremony)
    requires Opens(seen, op, c) && Writes(seen, db, op, c).Ok?
    ensures db.ledger <= Writes(seen, db, op, c).value.ledger
  {
    hide Accepted, KeysAfter, ActiveBinding, SigningKey, StateSigner, ReadConflict, ReplayAndAdvance, CheckpointAndPin, Retain,
      HistoryOf, TransportFrom, RequestCurrent, Blank;
    match c
    case StateCeremony(q, bundle, eventId, proofId, at, now) =>
      var target := KeysAfter(seen.ledger)[q.target];
      StateWriteAppends(db, op, q, target.kind, target.installId, StateSigner(seen, op, q, bundle).value, eventId, proofId, at, now);
    case RotateCeremony(_, _, _, _) =>
    case AuthorizeCeremony(_, _, _, _, _) =>
    case RecoveryCeremony(_, _, _, _, _) =>
    case CheckpointCeremony(_, _, _) =>
    case AdjudicateCeremony(_, _, _, _, _, _) =>
  }

  lemma StateWriteAppends(db: Db, op: OperatorId, q: StateRequest, kind: KeyKind, install: InstallId, signer: (KeyId, Bytes),
                          eventId: string, proofId: string, at: int, now: int)
    requires StateWrite(db, op, q, kind, install, signer, eventId, proofId, at, now).Ok?
    ensures db.ledger <= StateWrite(db, op, q, kind, install, signer, eventId, proofId, at, now).value.ledger
  {
    hide Accepted, KeysAfter, ReplayAndAdvance, StateDetailsFor;
  }

  lemma StepGrows(s: GateSystem, op: OperatorId, step: Step)
    ensures s.gate.db.ledger <= After(s, op, step).gate.db.ledger
  {
    hide Attempted, Opens, Writes;
    if step.CeremonyHalf? {
      if step.half.Commit? && step.half.i in s.open {
        var r := s.open[step.half.i];
        if Opens(r.seen, op, r.ceremony) && Writes(r.seen, s.gate.db, op, r.ceremony).Ok? {
          WritesOnlyAppend(r.seen, s.gate.db, op, r.ceremony);
        }
      }
    } else if Attempted(s.gate, op, step).Ok? {
      GateLeavesDb(s.gate, op, step);
    }
  }

  /** Along a run the ledger only grows. */
  lemma {:induction false} LedgerGrows(g: GateSystem, op: OperatorId, steps: seq<Step>, j: nat, k: nat)
    requires j <= k <= |steps|
    ensures GateRun(g, op, steps[..j]).gate.db.ledger <= GateRun(g, op, steps[..k]).gate.db.ledger
    decreases k - j
  {
    hide After;
    if j < k {
      LedgerGrows(g, op, steps, j, k - 1);
      StepGrows(GateRun(g, op, steps[..k - 1]), op, steps[k - 1]);
      assert steps[..k][..k - 1] == steps[..k - 1];
    }
  }

  /** A successful execution finds exactly the ledger its token was approved
      against, runs the mutation that was frozen and shown for approval, and has
      not happened before. */
  lemma ExecutionMatchesApproval(g: GateSystem, op: OperatorId, steps: seq<Step>, m: Mutation, token: Token, provenanceId: string, now: int)
    returns (j: int)
    requires Untouched(g.gate)
    requires Execute(GateRun(g, op, steps).gate, op, m, token, provenanceId, now).Ok?
    ensures IssuedBy(g, op, steps, j, token.challenge)
    ensures GateRun(g, op, steps[..j]).gate.db.ledger == GateRun(g, op, steps).gate.db.ledger
    ensures token.challenge.request.payload == TextSha(m.intent) && token.challenge.request.priorState == TextSha(m.priorState)
    ensures var before := GateRun(g, op, steps).gate; var id := token.challenge.request.operationId;
      && forall i | 0 <= i < |before.executions| :: before.executions[i].operationId != id
    ensures var before := GateRun(g, op, steps).gate; var r := Execute(before, op, m, token, provenanceId, now).value;
      && |r.executions| == |before.executions| + 1
      && TextSha(r.executions[|before.executions|].fields) == token.challenge.request.execution
      && r.executions[|before.executions|].intent == m.intent
  {
    hide Execute, Approve, After;
    var before := GateRun(g, op, steps).gate;
    var r := Execute(before, op, m, token, provenanceId, now).value;
    ExecuteFacts(before, r, op, m, token, provenanceId, now);
    AtMostOnce(g, op, steps);
    var id := token.challenge.request.operationId;
    assert FrozenOk(before.prepared[id], id);
    forall i | 0 <= i < |before.executions|
      ensures before.executions[i].operationId != id
    {
      assert ExecutionOk(before, before.executions[i]);
    }
    j := EveryChallengeIssued(g, op, steps, token.challenge.nonce);
    LedgerGrows(g, op, steps, j, |steps|);
    assert steps[..|steps|] == steps;
    ApprovalNamesHead(GateRun(g, op, steps[..j]).gate, op, steps[j].request, steps[j].nonce, steps[j].ttl, steps[j].now);
  }

  lemma ApprovalNamesHead(g: Gate, op: OperatorId, request: Request, nonce: string, ttl: int, now: int)
    requires Approve(g, op, request, nonce, ttl, now).Ok?
    ensures Approve(g, op, request, nonce, ttl, now).value.1.challenge.ledgerSequence == |g.db.ledger|
  {
    hide ReconciledKey;
  }

  // ---------- the hold stops tokens ----------

  /** No open ceremony and no step is an adjudication. */
  predicate NoAdjudication(g: GateSystem, steps: seq<Step>) {
    && (forall i | i in g.open :: !g.open[i].ceremony.AdjudicateCeremony?)
    && forall i | 0 <= i < |steps| && steps[i].CeremonyHalf? && steps[i].half.Begin? :: !steps[i].half.ceremony.AdjudicateCeremony?
  }

  /** From a blocked machine, with ceremonies of any age open, whatever is prepared, approved,
      executed, read or written: no token is issued, none is consumed, nothing executes and
      the machine stays as it is until an adjudication writes. */
  lemma {:induction false} HeldRunsIssueNothing(g: GateSystem, op: OperatorId, steps: seq<Step>)
    requires g.gate.db.anchor.Some? && g.gate.db.anchor.value.Blocked() && NoAdjudication(g, steps)
    ensures var r := GateRun(g, op, steps).gate;
      r.db == g.gate.db && r.challenges == g.gate.challenges && r.provenance == g.gate.provenance && r.executions == g.gate.executions
    ensures NoAdjudication(GateRun(g, op, steps), [])
  {
    hide After;
    if steps != [] {
      var n := |steps| - 1;
      assert forall i | 0 <= i < n :: steps[..n][i] == steps[i];
      HeldRunsIssueNothing(g, op, steps[..n]);
      HeldStep(GateRun(g, op, steps[..n]), op, steps[n]);
    }
  }

  lemma HeldStep(s: GateSystem, op: OperatorId, step: Step)
    requires s.gate.db.anchor.Some? && s.gate.db.anchor.value.Blocked() && NoAdjudication(s, [step])
    ensures var r := After(s, op, step).gate;
      r.db == s.gate.db && r.challenges == s.gate.challenges && r.provenance == s.gate.provenance && r.executions == s.gate.executions
    ensures NoAdjudication(After(s, op, step), [])
  {
    hide Approve, Execute, Opens, Writes;
    match step
    case FreezeStep(_, _, _) =>
    case ApproveStep(request, nonce, ttl, now) =>
      HeldIssuesNothing(s.gate, op, request, nonce, ttl, now);
    case ExecuteStep(m, token, provenanceId, now) =>
      HeldConsumesNothing(s.gate, op, m, token, provenanceId, now);
    case CeremonyHalf(half) =>
      assert [step][0] == step;
      if half.Commit? && half.i in s.open && Opens(s.open[half.i].seen, op, s.open[half.i].ceremony) {
        HeldWritesNothing(s.open[half.i].seen, s.gate.db, op, s.open[half.i].ceremony);
      }
  }

  /** On a blocked machine no write but an adjudication's commits. */
  lemma HeldWritesNothing(seen: Db, db: Db, op: OperatorId, c: Ceremony)
    requires Opens(seen, op, c) && db.anchor.Some? && db.anchor.value.Blocked() && !c.AdjudicateCeremony?
    ensures Writes(seen, db, op, c).Rejected?
  {
    hide Accepted, KeysAfter, ActiveBinding, SigningKey, StateSigner, RequestCurrent, Blank, Retain, StateDetailsFor, StateKind;
  }

  lemma HeldIssuesNothing(g: Gate, op: OperatorId, request: Request, nonce: string, ttl: int, now: int)
    requires g.db.anchor.Some? && g.db.anchor.value.Blocked()
    ensures Approve(g, op, request, nonce, ttl, now).Rejected?
  {
    hide Accepted, RowsAgree;
  }

  lemma HeldConsumesNothing(g: Gate, op: OperatorId, m: Mutation, token: Token, provenanceId: string, now: int)
    requires g.db.anchor.Some? && g.db.anchor.value.Blocked()
    ensures Execute(g, op, m, token, provenanceId, now).Rejected?
  {
    hide TokenGood;
  }

  // ---------- what a token must be ----------

  /** The token is this key's signature over exactly its challenge, which names this
      machine, its head and its key, and is in its window of at most two minutes. */
  predicate SignedInTime(db: Db, op: OperatorId, key: KeyId, token: Token, now: int)
    requires key in db.keyRows
  {
    var c, row := token.challenge, db.keyRows[key];
    && token.signature == TokenSignature(row.publicKey, c)
    && c.operator == op && c.keyId == key && c.install == row.installId && c.store == row.store && c.ledgerSequence == |db.ledger|
    && c.issuedAt <= now < c.expiresAt <= c.issuedAt + 120 * SECOND
  }

  predicate SignedByActive(db: Db, op: OperatorId, key: KeyId, token: Token, now: int) {
    OneActiveRow(db, key) && SignedInTime(db, op, key, token, now)
  }

  /** The mutation is the one frozen under the token's operation, unexpired, neither executed nor recorded. */
  predicate FrozenFor(g: Gate, op: OperatorId, m: Mutation, token: Token, now: int) {
    var id := token.challenge.request.operationId;
    && id in g.prepared && g.prepared[id].status == Pending && g.prepared[id].request == token.challenge.request
    && g.prepared[id].command == m.command && g.prepared[id].operator == op && now < g.prepared[id].expiresAt
    && g.prepared[id].intent == m.intent && g.prepared[id].priorState == m.priorState
    && forall pid | pid in g.provenance :: g.provenance[pid].operationId != id
  }

  /** A token executes a mutation if and only if writes are open, it is the one active key's
      signature over its own challenge within that challenge's window, the challenge is issued
      here and unconsumed, and the mutation is the pending one it approves. */
  lemma ExecutesExactly(g: Gate, op: OperatorId, m: Mutation, token: Token, provenanceId: string, now: int)
    ensures Execute(g, op, m, token, provenanceId, now).Ok? <==>
      && g.db.anchor.Some? && g.db.anchor.value.blockReason == None
      && (exists key :: SignedByActive(g.db, op, key, token, now))
      && token.challenge.nonce != "" && token.challenge.request.Valid()
      && token.challenge.nonce in g.challenges && g.challenges[token.challenge.nonce] == Issued(token.challenge, None)
      && FrozenFor(g, op, m, token, now) && provenanceId !in g.provenance
  {
    hide ActiveBinding, OneActiveRow;
    if key :| SignedByActive(g.db, op, key, token, now) {
      ActiveBindingExactly(g.db, key);
      ActiveRowIsHere(g.db, key);
    }
    if ActiveBinding(g.db).Ok? {
      var key := ActiveBinding(g.db).value;
      ActiveBindingExactly(g.db, key);
      ActiveRowIsHere(g.db, key);
      assert TokenGood(g, op, token, now) ==> SignedByActive(g.db, op, key, token, now);
    }
  }

  /** The step at position j executed with a token signed by the one active key within its
      window, and made the i-th execution. */
  ghost predicate ExecutedAt(g: GateSystem, op: OperatorId, steps: seq<Step>, j: int, i: nat) {
    && 0 <= j < |steps| && steps[j].ExecuteStep?
    && var before := GateRun(g, op, steps[..j]).gate; var s := steps[j];
    && |before.executions| == i && Execute(before, op, s.m, s.token, s.provenanceId, s.now).Ok?
    && (exists key :: SignedByActive(before.db, op, key, s.token, s.now))
    && i < |GateRun(g, op, steps).gate.executions|
    && var x := GateRun(g, op, steps).gate.executions[i];
    && x.operationId == s.token.challenge.request.operationId && x.ledger == before.db.ledger && x.provenanceId == s.provenanceId
  }

  /** Every execution of every run was made by a step whose token was the one active key's
      signature over its own challenge, within that challenge's window. */
  lemma {:induction false} EveryExecutionSigned(g: GateSystem, op: OperatorId, steps: seq<Step>, i: nat) returns (j: int)
    requires Untouched(g.gate) && i < |GateRun(g, op, steps).gate.executions|
    ensures ExecutedAt(g, op, steps, j, i)
  {
    hide After, SignedByActive, Execute;
    var n := |steps| - 1;
    var init, step := steps[..n], steps[n];
    var before := GateRun(g, op, init);
    ExecutionsStep(before, op, step);
    if i < |before.gate.executions| {
      j := EveryExecutionSigned(g, op, init, i);
      assert steps[..j] == init[..j];
    } else {
      j := n;
    }
  }

  /** One step adds no execution, or the one of an execute step that succeeds. */
  lemma ExecutionsStep(s: GateSystem, op: OperatorId, step: Step)
    ensures var a, b := s.gate.executions, After(s, op, step).gate.executions;
      || b == a
      || (&& step.ExecuteStep? && Execute(s.gate, op, step.m, step.token, step.provenanceId, step.now).Ok?
          && (exists key :: SignedByActive(s.gate.db, op, key, step.token, step.now))
          && |b| == |a| + 1 && b[..|a|] == a
          && b[|a|].operationId == step.token.challenge.request.operationId && b[|a|].ledger == s.gate.db.ledger
          && b[|a|].provenanceId == step.provenanceId)
  {
    hide ReconciledKey, SplitNext, Execute, SignedByActive;
    match step
    case ExecuteStep(m, token, provenanceId, now) =>
      var r := Execute(s.gate, op, m, token, provenanceId, now);
      if r.Ok? {
        ExecuteFacts(s.gate, r.value, op, m, token, provenanceId, now);
        ExecutesExactly(s.gate, op, m, token, provenanceId, now);
      }
    case FreezeStep(_, _, _) =>
    case ApproveStep(_, _, _, _) =>
    case CeremonyHalf(_) =>
  }

  /** A token is issued if and only if writes are open, the machine's ledger replays and its
      rows agree with it, one key is active, and the request is exactly a pending, unexpired
      one with a new nonce and a lifetime of one to 120 seconds. */
  lemma ApprovesExactly(g: Gate, op: OperatorId, request: Request, nonce: string, ttl: int, now: int)
    ensures Approve(g, op, request, nonce, ttl, now).Ok? <==>
      && g.db.anchor.Some? && g.db.anchor.value.blockReason == None
      && Accepted(g.db.ledger, op) && RowsAgree(g.db.ledger, g.db.keyRows) && (exists key :: OneActiveRow(g.db, key))
      && request.operationId in g.prepared && g.prepared[request.operationId].request == request
      && g.prepared[request.operationId].status == Pending && now < g.prepared[request.operationId].expiresAt
      && 1 <= ttl <= 120 && nonce != "" && nonce !in g.challenges && request.Valid()
  {
    hide ActiveBinding, OneActiveRow, Accepted, RowsAgree;
    if key :| OneActiveRow(g.db, key) {
      ActiveBindingExactly(g.db, key);
      ActiveRowIsHere(g.db, key);
    }
    if ActiveBinding(g.db).Ok? {
      ActiveBindingExactly(g.db, ActiveBinding(g.db).value);
      ActiveRowIsHere(g.db, ActiveBinding(g.db).value);
    }
  }

  /** An approved mutation can be executed, once, until its token expires: whatever the gate
      did in between, as long as the machine and the frozen mutation are as they were. */
  lemma ApprovedExecutes(g: Gate, later: Gate, op: OperatorId, m: Mutation, operationId: string, nonce: string, ttl: int, now: int,
                         provenanceId: string, t: int)
    requires operationId in g.prepared && Approve(g, op, g.prepared[operationId].request, nonce, ttl, now).Ok?
    requires g.prepared[operationId].request.operationId == operationId
    requires var r := Approve(g, op, g.prepared[operationId].request, nonce, ttl, now).value.0;
      later.db == r.db && operationId in later.prepared && later.prepared[operationId] == r.prepared[operationId]
      && nonce in later.challenges && later.challenges[nonce] == r.challenges[nonce]
    requires var p := g.prepared[operationId];
      p.command == m.command && p.operator == op && p.intent == m.intent && p.priorState == m.priorState && t < p.expiresAt
    requires (forall pid | pid in later.provenance :: later.provenance[pid].operationId != operationId) && provenanceId !in later.provenance
    ensures var token := Approve(g, op, g.prepared[operationId].request, nonce, ttl, now).value.1;
      Execute(later, op, m, token, provenanceId, t).Ok? <==> now <= t < now + ttl * SECOND
  {
    var request := g.prepared[operationId].request;
    var token := Approve(g, op, request, nonce, ttl, now).value.1;
    ApprovesExactly(g, op, request, nonce, ttl, now);
    ExecutesExactly(later, op, m, token, provenanceId, t);
    ApprovalIsSigned(g, op, request, nonce, ttl, now);
    hide Approve, Execute, OneActiveRow;
    var key := token.challenge.keyId;
    if now <= t < now + ttl * SECOND {
      assert SignedByActive(later.db, op, key, token, t);
    }
  }

  lemma ApprovalIsSigned(g: Gate, op: OperatorId, request: Request, nonce: string, ttl: int, now: int)
    requires Approve(g, op, request, nonce, ttl, now).Ok?
    ensures var r := Approve(g, op, request, nonce, ttl, now).value; var c := r.1.challenge;
      && OneActiveRow(g.db, c.keyId) && c.keyId in g.db.keyRows
      && r.1.signature == TokenSignature(g.db.keyRows[c.keyId].publicKey, c)
      && c.operator == op && c.install == g.db.keyRows[c.keyId].installId && c.store == g.db.keyRows[c.keyId].store
      && c.ledgerSequence == |g.db.ledger| && c.request == request && c.nonce == nonce
      && c.issuedAt == now && c.expiresAt == now + ttl * SECOND
      && r.0 == g.(challenges := g.challenges[nonce := Issued(c, None)])
  {
    hide ActiveBinding, OneActiveRow, Accepted, RowsAgree;
    var key := ReconciledKey(g.db, op).value;
    ActiveBindingExactly(g.db, key);
  }

  /** A mutation is frozen exactly when it is complete and its operation is new; its request
      then commits to its three texts and repeats its lists, and it lapses after a day. */
  lemma FreezesExactly(g: Gate, op: OperatorId, m: Mutation, operationId: string, now: int)
    ensures Freeze(g, op, m, operationId, now).Ok? <==>
      && operationId != "" && m.command != "" && m.purpose != "" && m.transition != "" && operationId !in g.prepared
      && StringList(m.subjects) && StringList(m.sources) && StringList(m.targets) && StringList(m.proposals)
      && StringList(m.resultVersions) && StringList(m.scope) && StringList(m.fieldPaths)
    ensures Freeze(g, op, m, operationId, now).Ok? ==>
      var r := Freeze(g, op, m, operationId, now).value;
      && operationId in r.prepared && r.prepared - {operationId} == g.prepared - {operationId}
      && r.challenges == g.challenges && r.provenance == g.provenance && r.executions == g.executions && r.db == g.db
      && var p := r.prepared[operationId]; var q := p.request;
      && p.command == m.command && p.operator == op && p.intent == m.intent && p.priorState == m.priorState && p.fields == m.fields
      && p.expiresAt == now + 24 * 60 * 60 * SECOND && p.status == Pending && p.provenance == None
      && q.operationId == operationId && q.purpose == m.purpose && q.transition == m.transition
      && q.payload == TextSha(m.intent) && q.priorState == TextSha(m.priorState) && q.execution == TextSha(m.fields)
      && q.subjects == m.subjects && q.sources == m.sources && q.targets == m.targets && q.proposals == m.proposals
      && q.resultVersions == m.resultVersions && q.scope == m.scope && q.fieldPaths == m.fieldPaths
  {
    hide StringList;
    var lists := [m.subjects, m.sources, m.targets, m.proposals, m.resultVersions, m.scope, m.fieldPaths];
    assert lists[0] == m.subjects && lists[1] == m.sources && lists[2] == m.targets && lists[3] == m.proposals;
    assert lists[4] == m.resultVersions && lists[5] == m.scope && lists[6] == m.fieldPaths;
  }
}
