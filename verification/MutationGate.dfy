/** Prepared mutations, challenges, single-use tokens and their execution. */
module MutationGate {
  import opened Outcomes
  import opened AuthorityData
  import opened AuthorityLedger
  import opened AuthorityTrust
  import opened AuthorityService
  import opened AuthorityMachine

  const PREPARED_TTL: int := 24 * 60 * 60 * SECOND
  const MAX_TTL_SECONDS: int := 120

  /** The digest of a canonical text. */
  datatype TextSha = TextSha(text: string)

  /** Everything a token binds about the mutation itself. */
  datatype Request = Request(
    operationId: string, purpose: string, payload: TextSha, priorState: TextSha, execution: TextSha, transition: string,
    subjects: seq<string>, sources: seq<string>, targets: seq<string>, proposals: seq<string>,
    resultVersions: seq<string>, scope: seq<string>, fieldPaths: seq<string>)
  {
    predicate Valid() {
      && operationId != "" && purpose != "" && transition != ""
      && forall ids | ids in [subjects, sources, targets, proposals, resultVersions, scope, fieldPaths] :: StringList(ids)
    }
  }

  /** Non-empty strings without repetition. */
  predicate StringList(ids: seq<string>) {
    (forall i | 0 <= i < |ids| :: ids[i] != "") && (forall i, j | 0 <= i < j < |ids| :: ids[i] != ids[j])
  }

  datatype PreparedStatus = Pending | Executed

  datatype FrozenMutation = FrozenMutation(
    command: string, operator: OperatorId, request: Request, intent: string, priorState: string, fields: string,
    expiresAt: int, status: PreparedStatus, provenance: Option<string>)

  datatype Challenge = Challenge(
    operator: OperatorId, install: InstallId, keyId: KeyId, store: StoreId, ledgerSequence: int, request: Request,
    nonce: string, issuedAt: int, expiresAt: int)
  {
    predicate ShapeOk() {
      && request.Valid() && ledgerSequence >= 1 && nonce != ""
      && issuedAt < expiresAt <= issuedAt + MAX_TTL_SECONDS * SECOND
    }
  }

  datatype TokenSignature = TokenSignature(signerKey: Bytes, challenge: Challenge) | BadSignature

  datatype Token = Token(challenge: Challenge, signature: TokenSignature)

  /** A row of `authority_challenges`; the stored digest determines the challenge. */
  datatype Issued = Issued(challenge: Challenge, consumedBy: Option<string>)

  /** A row of `authority_provenance`. */
  datatype Provenance = Provenance(operationId: string, challenge: Challenge, ledgerSequence: int)

  /** What the caller's mutation ran with, in the transaction that consumed the token. */
  datatype Execution = Execution(
    operationId: string, command: string, intent: string, fields: string, ledger: seq<Row>, provenanceId: string)

  datatype Gate = Gate(
    db: Db, prepared: map<string, FrozenMutation>, challenges: map<string, Issued>, provenance: map<string, Provenance>,
    executions: seq<Execution>)

  /** A mutation as its caller describes it. */
  datatype Mutation = Mutation(
    command: string, purpose: string, intent: string, priorState: string, fields: string, transition: string,
    subjects: seq<string>, sources: seq<string>, targets: seq<string>, proposals: seq<string>,
    resultVersions: seq<string>, scope: seq<string>, fieldPaths: seq<string>)

  function RequestFor(m: Mutation, operationId: string): Request {
    Request(operationId, m.purpose, TextSha(m.intent), TextSha(m.priorState), TextSha(m.fields), m.transition,
            m.subjects, m.sources, m.targets, m.proposals, m.resultVersions, m.scope, m.fieldPaths)
  }

  // ---------- the three operations ----------

  /** Without a token: freeze the mutation durably and ask for approval. */
  function Freeze(g: Gate, op: OperatorId, m: Mutation, operationId: string, now: int): Result<Gate> {
    var request := RequestFor(m, operationId);
    if !request.Valid() || m.command == "" || operationId in g.prepared then Rejected
    else Ok(g.(prepared := g.prepared[operationId :=
      FrozenMutation(m.command, op, request, m.intent, m.priorState, m.fields, now + PREPARED_TTL, Pending, None)]))
  }

  function ChallengeFor(db: Db, op: OperatorId, key: KeyId, request: Request, nonce: string, ttl: int, now: int): Challenge
    requires key in db.keyRows
  {
    Challenge(op, db.keyRows[key].installId, key, db.keyRows[key].store, |db.ledger|, request, nonce, now, now + ttl * SECOND)
  }

  /** `approve`: challenge the exact frozen request, record the nonce, sign. */
  ghost function Approve(g: Gate, op: OperatorId, request: Request, nonce: string, ttl: int, now: int): Result<(Gate, Token)> {
    var key :- ReconciledKey(g.db, op);
    :- Check(key in g.db.keyRows && request.operationId in g.prepared);
    var p := g.prepared[request.operationId];
    :- Check(p.status == Pending && p.request == request && now < p.expiresAt);
    :- Check(1 <= ttl <= MAX_TTL_SECONDS && nonce != "" && nonce !in g.challenges && request.Valid() && |g.db.ledger| >= 1);
    var c := ChallengeFor(g.db, op, key, request, nonce, ttl, now);
    Ok((g.(challenges := g.challenges[nonce := Issued(c, None)]), Token(c, TokenSignature(g.db.keyRows[key].publicKey, c))))
  }

  /** The frozen mutation a token names, still pending and unchanged. */
  predicate StillFrozen(g: Gate, op: OperatorId, m: Mutation, operationId: string, now: int) {
    && operationId in g.prepared
    && var p := g.prepared[operationId];
    && p.status == Pending
    && p.command == m.command && p.operator == op
    && now < p.expiresAt
    && p.intent == m.intent && p.priorState == m.priorState
  }

  /** The token is the unconsumed challenge this store issued, current and signed by the active key. */
  ghost predicate TokenGood(g: Gate, op: OperatorId, token: Token, now: int) {
    var c := token.challenge;
    && c.ShapeOk()
    && c.request.operationId in g.prepared && c.request == g.prepared[c.request.operationId].request
    && ActiveBinding(g.db).Ok?
    && var key := ActiveBinding(g.db).value;
    && key in g.db.keyRows
    && c.operator == op && c.keyId == key && c.install == g.db.keyRows[key].installId && c.store == g.db.keyRows[key].store
    && c.ledgerSequence == |g.db.ledger|
    && c.nonce in g.challenges && g.challenges[c.nonce] == Issued(c, None)
    && c.issuedAt <= now < c.expiresAt
    && token.signature == TokenSignature(g.db.keyRows[key].publicKey, c)
  }

  predicate OperationRecorded(provenance: map<string, Provenance>, operationId: string) {
    exists id | id in provenance :: provenance[id].operationId == operationId
  }

  /** With a token: consume it and run the mutation with the frozen fields, in one transaction. */
  ghost function Execute(g: Gate, op: OperatorId, m: Mutation, token: Token, provenanceId: string, now: int): Result<Gate> {
    var c := token.challenge;
    var id := c.request.operationId;
    if !StillFrozen(g, op, m, id, now) then Rejected
    else
      var anchor :- WritableAnchor(g.db);
      :- Check(TokenGood(g, op, token, now));
      :- Check(provenanceId !in g.provenance && !OperationRecorded(g.provenance, id));
      var p := g.prepared[id];
      Ok(g.(
        provenance := g.provenance[provenanceId := Provenance(id, c, |g.db.ledger|)],
        challenges := g.challenges[c.nonce := Issued(c, Some(provenanceId))],
        prepared := g.prepared[id := p.(status := Executed, provenance := Some(provenanceId))],
        executions := g.executions + [Execution(id, p.command, p.intent, p.fields, g.db.ledger, provenanceId)]))
  }

  // ---------- the tables, updated in place ----------

  class MutationTables {
    const machine: Machine
    var prepared: map<string, FrozenMutation>
    var challenges: map<string, Issued>
    var provenance: map<string, Provenance>
    var executions: seq<Execution>

    constructor (m: Machine)
      ensures machine == m && Value() == Gate(m.Value(), map[], map[], map[], [])
    {
      machine := m;
      prepared, challenges, provenance, executions := map[], map[], map[], [];
    }

    ghost function Value(): Gate
      reads this, machine.store, machine.store.ledger
    {
      Gate(machine.Value(), prepared, challenges, provenance, executions)
    }

    method PrepareMutation(m: Mutation, operationId: string, now: int) returns (ok: bool)
      modifies this
      ensures ok == Freeze(old(Value()), machine.op, m, operationId, now).Ok?
      ensures Value() == if ok then Freeze(old(Value()), machine.op, m, operationId, now).value else old(Value())
    {
      var request := RequestFor(m, operationId);
      if !request.Valid() || m.command == "" || operationId in prepared {
        return false;
      }
      prepared := prepared[operationId :=
        FrozenMutation(m.command, machine.op, request, m.intent, m.priorState, m.fields, now + PREPARED_TTL, Pending, None)];
      ok := true;
    }

    method ApproveRequest(request: Request, nonce: string, ttl: int, now: int) returns (r: Result<Token>)
      modifies this
      ensures r.Ok? == Approve(old(Value()), machine.op, request, nonce, ttl, now).Ok?
      ensures r.Ok? ==> (Value(), r.value) == Approve(old(Value()), machine.op, request, nonce, ttl, now).value
      ensures r.Rejected? ==> Value() == old(Value())
    {
      hide ReconciledKey;
      var key := machine.OpenReconciledKey();
      if key.Rejected? || key.value !in machine.store.keyRows || request.operationId !in prepared {
        return Rejected;
      }
      var frozen := prepared[request.operationId];
      if frozen.status != Pending || frozen.request != request || now >= frozen.expiresAt {
        return Rejected;
      }
      var sequence := |machine.store.ledger.rows|;
      if ttl < 1 || ttl > MAX_TTL_SECONDS || nonce == "" || nonce in challenges || !request.Valid() || sequence < 1 {
        return Rejected;
      }
      var row := machine.store.keyRows[key.value];
      var c := Challenge(machine.op, row.installId, key.value, row.store, sequence, request, nonce, now, now + ttl * SECOND);
      challenges := challenges[nonce := Issued(c, None)];
      r := Ok(Token(c, TokenSignature(row.publicKey, c)));
    }

    /** `load_prepared_mutation`, `verify_and_consume`, `mark_prepared_executed` and the caller's mutation. */
    method ExecuteApproved(m: Mutation, token: Token, provenanceId: string, now: int) returns (r: Result<string>)
      modifies this
      ensures r.Ok? == Execute(old(Value()), machine.op, m, token, provenanceId, now).Ok?
      ensures Value() == if r.Ok? then Execute(old(Value()), machine.op, m, token, provenanceId, now).value else old(Value())
      ensures r.Ok? ==> r.value == old(prepared)[token.challenge.request.operationId].fields
    {
      var c := token.challenge;
      var id := c.request.operationId;
      if id !in prepared {
        return Rejected;
      }
      var frozen := prepared[id];
      if frozen.status != Pending || frozen.command != m.command || frozen.operator != machine.op || now >= frozen.expiresAt
         || frozen.intent != m.intent || frozen.priorState != m.priorState {
        return Rejected;
      }
      var anchor := machine.store.AssertWritesAllowed();
      if anchor.Rejected? || !c.ShapeOk() || c.request != frozen.request {
        return Rejected;
      }
      var active := ActiveRows(machine.store.keyRows);
      if |active| != 1 {
        return Rejected;
      }
      var key :| key in active;
      assert active == {key} by {
        assert |active - {key}| == 0;
      }
      var row := machine.store.keyRows[key];
      var head := |machine.store.ledger.rows|;
      if head == 0 || head < row.sequence || c.operator != machine.op || c.keyId != key || c.install != row.installId
         || c.store != row.store || c.ledgerSequence != head {
        return Rejected;
      }
      if c.nonce !in challenges || challenges[c.nonce].challenge != c || challenges[c.nonce].consumedBy.Some? {
        return Rejected;
      }
      if now < c.issuedAt || now >= c.expiresAt || token.signature != TokenSignature(row.publicKey, c) {
        return Rejected;
      }
      if provenanceId in provenance || OperationRecorded(provenance, id) {
        return Rejected;
      }
      provenance := provenance[provenanceId := Provenance(id, c, head)];
      challenges := challenges[c.nonce := Issued(c, Some(provenanceId))];
      prepared := prepared[id := frozen.(status := Executed, provenance := Some(provenanceId))];
      executions := executions + [Execution(id, frozen.command, frozen.intent, frozen.fields, machine.store.ledger.rows, provenanceId)];
      r := Ok(frozen.fields);
    }
  }
}
