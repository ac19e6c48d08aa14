/** The capture spool: immutable envelope files, batch application, acknowledgements, pruning. */
module Spool {
  import opened Outcomes
  import opened Sorting

  /** A capture envelope. `content` is its operator wording after normalisation,
      `subjects` the nodes it creates, `body` everything else. */
  datatype Envelope = Envelope(
    id: string, node: string, operator: string, capturedAt: string, content: string, subjects: seq<string>, body: string)

  /** A spool file: some text of a valid envelope (number 0 is the canonical one), or anything else. */
  datatype File = Readable(envelope: Envelope, spelling: nat) | Malformed(bytes: nat)

  /** `<node>/<name>.json`, in the spool or among the acknowledgements; an event
      URN is determined by its last component, which names the file. */
  datatype Path = Path(node: string, name: string)

  datatype EnvelopeSha = EnvelopeSha(envelope: Envelope)
  datatype FileSha = FileSha(file: File)

  datatype Ack = Ack(id: string, node: string, payload: EnvelopeSha, file: FileSha, source: Path, at: int)

  datatype Outcome = Captured | Duplicate | Refused

  /** The canonical store: event rows in insertion order, `consumed_inputs`,
      `captured_feedback_dedup`, node identities, and event identities of other kinds. */
  datatype Canon = Canon(
    order: seq<string>, events: map<string, Envelope>, consumed: map<string, EnvelopeSha>,
    firsts: map<(string, string), string>, nodes: set<string>, otherEvents: set<string>)

  /** The operator and producer node the store is configured for. */
  datatype Config = Config(operator: Option<string>, node: Option<string>)
  {
    predicate Admits(e: Envelope) {
      (operator.Some? ==> e.operator == operator.value) && (node.Some? ==> e.node == node.value)
    }
  }

  datatype State = State(spool: map<Path, File>, acks: map<Path, Ack>, canon: Canon, receipts: set<Path>)

  datatype Item = Item(path: Path, envelope: Envelope)

  const DAY: int := 24 * 60 * 60

  function Home(e: Envelope): Path { Path(e.node, e.id) }

  function ContentKey(e: Envelope): (string, string) { (e.operator, e.content) }

  predicate Distinct(s: seq<string>) { forall i, j | 0 <= i < j < |s| :: s[i] != s[j] }

  // ---------- writing and applying ----------

  /** Create-new publication: the same bytes again are accepted, other bytes are a conflict. */
  function Written(spool: map<Path, File>, e: Envelope): Result<map<Path, File>> {
    if Home(e) !in spool then Ok(spool[Home(e) := Readable(e, 0)])
    else if spool[Home(e)] == Readable(e, 0) then Ok(spool)
    else Rejected
  }

  predicate IdentitiesFree(c: Canon, e: Envelope) {
    && e.id !in c.events && e.id !in c.otherEvents
    && Distinct(e.subjects) && forall s | s in e.subjects :: s !in c.nodes
  }

  /** One capture, isolated by its savepoint. */
  function Apply(x: Config, c: Canon, e: Envelope): (Canon, Outcome) {
    if !x.Admits(e) then (c, Refused)
    else if e.id in c.consumed then (c, if c.consumed[e.id] == EnvelopeSha(e) then Duplicate else Refused)
    else if ContentKey(e) in c.firsts then (c, Duplicate)
    else if !IdentitiesFree(c, e) then (c, Refused)
    else (Canon(c.order + [e.id], c.events[e.id := e], c.consumed[e.id := EnvelopeSha(e)], c.firsts[ContentKey(e) := e.id],
                c.nodes + (set s | s in e.subjects), c.otherEvents), Captured)
  }

  function ApplyAll(x: Config, c: Canon, es: seq<Envelope>): (Canon, seq<Outcome>) {
    if es == [] then (c, [])
    else
      var before := ApplyAll(x, c, es[..|es| - 1]);
      var last := Apply(x, before.0, es[|es| - 1]);
      (last.0, before.1 + [last.1])
  }

  // ---------- acknowledging and pruning ----------

  predicate AckCommitted(s: State, path: Path, e: Envelope)
    requires path in s.spool
  {
    Home(e) in s.acks && SameEvidence(s.acks[Home(e)], Evidence(path, s.spool[path], e, 0))
  }

  function Evidence(path: Path, file: File, e: Envelope, now: int): Ack {
    Ack(e.id, e.node, EnvelopeSha(e), FileSha(file), path, now)
  }

  predicate SameEvidence(a: Ack, b: Ack) { a.(at := 0) == b.(at := 0) }

  function Acknowledged(s: State, item: Item, now: int): Result<State> {
    if item.path !in s.spool then Rejected
    else
      var evidence := Evidence(item.path, s.spool[item.path], item.envelope, now);
      var key := Home(item.envelope);
      if key !in s.acks then Ok(s.(acks := s.acks[key := evidence]))
      else if SameEvidence(s.acks[key], evidence) then Ok(s)
      else Rejected
  }

  /** The acknowledged source is still there, byte for byte, and old enough. */
  predicate Prunable(s: State, key: Path, now: int, days: int) {
    && key in s.acks && s.acks[key].source == key && key in s.spool
    && var file := s.spool[key];
    && file.Readable? && file.envelope.id == s.acks[key].id
    && EnvelopeSha(file.envelope) == s.acks[key].payload && FileSha(file) == s.acks[key].file
    && s.acks[key].at <= now - days * DAY
  }

  /** An acknowledgement whose source is already gone. */
  predicate Leftover(s: State, key: Path) {
    key in s.acks && s.acks[key].source == key && key !in s.spool
  }

  /** Pruning by some acknowledgements; each one touches its own path only. */
  function PrunedBy(s: State, keys: set<Path>, now: int, days: int): State {
    var due := set k | k in keys && Prunable(s, k, now, days);
    var gone := set k | k in keys && Leftover(s, k);
    s.(spool := s.spool - due, acks := s.acks - (due + gone))
  }

  function AckKeys(s: State, nodes: set<string>): set<Path> { set k | k in s.acks && k.node in nodes }

  function Pruned(s: State, nodes: set<string>, now: int, days: int): State {
    PrunedBy(s, AckKeys(s, nodes), now, days)
  }

  lemma PrunedInTurn(s: State, a: set<Path>, b: set<Path>, now: int, days: int)
    requires a !! b
    ensures PrunedBy(PrunedBy(s, a, now, days), b, now, days) == PrunedBy(s, a + b, now, days)
  {
    var first := PrunedBy(s, a, now, days);
    forall k | k in b
      ensures Prunable(first, k, now, days) == Prunable(s, k, now, days) && Leftover(first, k) == Leftover(s, k)
    {
    }
    assert (set k | k in a + b && Prunable(s, k, now, days))
        == (set k | k in a && Prunable(s, k, now, days)) + (set k | k in b && Prunable(s, k, now, days));
    assert (set k | k in a + b && Leftover(s, k)) == (set k | k in a && Leftover(s, k)) + (set k | k in b && Leftover(s, k));
  }

  // ---------- one compile ----------

  /** A directory listing: every path once. */
  ghost predicate Lists(listing: seq<Path>, paths: set<Path>) {
    (forall i, j | 0 <= i < j < |listing| :: listing[i] != listing[j]) && (forall p :: p in listing <==> p in paths)
  }

  /** Readable envelopes without valid evidence of their commit. */
  function Inputs(s: State, listing: seq<Path>): seq<Item> {
    if listing == [] then []
    else
      var rest := Inputs(s, listing[..|listing| - 1]);
      var p := listing[|listing| - 1];
      if p in s.spool && s.spool[p].Readable? && !AckCommitted(s, p, s.spool[p].envelope) then rest + [Item(p, s.spool[p].envelope)]
      else rest
  }

  function Unreadable(s: State, listing: seq<Path>): set<Path> {
    set p | p in listing && p in s.spool && s.spool[p].Malformed?
  }

  function Producers(s: State, listing: seq<Path>): set<string> {
    set p | p in listing && p in s.spool && s.spool[p].Readable? :: s.spool[p].envelope.node
  }

  /** Orders inputs by capture time, event identity and path; 0 ends each text. */
  function ItemKey(i: Item): seq<int> {
    TextKey(i.envelope.capturedAt) + [0] + TextKey(i.envelope.id) + [0] + TextKey(i.path.node) + [0] + TextKey(i.path.name)
  }

  function TextKey(s: string): seq<int> { seq(|s|, i requires 0 <= i < |s| => s[i] as int + 1) }

  function Envelopes(items: seq<Item>): seq<Envelope> { seq(|items|, i requires 0 <= i < |items| => items[i].envelope) }

  /** The acknowledgement loop; a conflicting acknowledgement stops the compile. */
  function AckFrom(s: State, items: seq<Item>, outcomes: seq<Outcome>, now: int): (State, bool)
    requires |outcomes| == |items|
    decreases |items|
  {
    if items == [] then (s, true)
    else if outcomes[0].Refused? then AckFrom(s.(receipts := s.receipts + {items[0].path}), items[1..], outcomes[1..], now)
    else
      var acked := Acknowledged(s, items[0], now);
      if acked.Rejected? then (s, false) else AckFrom(acked.value, items[1..], outcomes[1..], now)
  }

  function Sorted(s: State, listing: seq<Path>): seq<Item> { Sort(Inputs(s, listing), ItemKey) }

  function AfterApply(x: Config, s: State, listing: seq<Path>): (State, seq<Outcome>) {
    var applied := ApplyAll(x, s.canon, Envelopes(Sorted(s, listing)));
    (s.(canon := applied.0, receipts := s.receipts + Unreadable(s, listing)), applied.1)
  }

  lemma {:induction false} ApplyAllAnswers(x: Config, c: Canon, es: seq<Envelope>)
    ensures |ApplyAll(x, c, es).1| == |es|
  {
    if es != [] {
      ApplyAllAnswers(x, c, es[..|es| - 1]);
    }
  }

  function AfterAcks(x: Config, s: State, listing: seq<Path>, now: int): (State, bool) {
    var applied := AfterApply(x, s, listing);
    ApplyAllAnswers(x, s.canon, Envelopes(Sorted(s, listing)));
    AckFrom(applied.0, Sorted(s, listing), applied.1, now)
  }

  /** A whole compile; false when it ends in an exception, with what it had done by then. */
  function Compiled(x: Config, s: State, listing: seq<Path>, now: int, days: int, batchSize: int): (State, bool) {
    if batchSize < 1 || batchSize > 1000 then (s.(receipts := s.receipts + Unreadable(s, listing)), false)
    else
      var acked := AfterAcks(x, s, listing, now);
      if !acked.1 || (days < 1 && Producers(s, listing) != {}) then (acked.0, false)
      else (Pruned(acked.0, Producers(s, listing), now, days), true)
  }

  // ---------- what leaves the spool ----------

  /** The acknowledgement at this path is for exactly the envelope and the bytes now
      there, and was written at least so many days ago. */
  predicate AnsweredLongAgo(s: State, path: Path, now: int, days: int)
    requires path in s.spool
  {
    && path in s.acks && s.spool[path].Readable?
    && s.acks[path].source == path && s.acks[path].id == s.spool[path].envelope.id
    && s.acks[path].payload == EnvelopeSha(s.spool[path].envelope) && s.acks[path].file == FileSha(s.spool[path])
    && now - s.acks[path].at >= days * 24 * 60 * 60
  }

  /** A prune takes a file if and only if its own path's acknowledgement is for exactly that
      file and old enough; every other file stays as it is, and acknowledgements go only
      with their file or after it. */
  lemma PruneTakesExactly(s: State, nodes: set<string>, now: int, days: int, path: Path)
    ensures var r := Pruned(s, nodes, now, days);
      && (path in r.spool <==> path in s.spool && !(path.node in nodes && AnsweredLongAgo(s, path, now, days)))
      && (path in r.spool ==> r.spool[path] == s.spool[path])
      && (path in r.acks <==> path in s.acks && (path.node in nodes ==> path in r.spool || (s.acks[path].source != path && path !in s.spool)))
      && (path in r.acks ==> r.acks[path] == s.acks[path])
      && r.canon == s.canon && r.receipts == s.receipts
  {
  }

  /** Acknowledging leaves the files and the older acknowledgements alone; what it adds is dated now. */
  lemma {:induction false} AckingAdds(s: State, items: seq<Item>, outcomes: seq<Outcome>, now: int)
    requires |outcomes| == |items|
    ensures var r := AckFrom(s, items, outcomes, now).0;
      && r.spool == s.spool && r.canon == s.canon
      && (forall k | k in s.acks :: k in r.acks && r.acks[k] == s.acks[k])
      && (forall k | k in r.acks && k !in s.acks :: r.acks[k].at == now)
    decreases |items|
  {
    if items != [] {
      if outcomes[0].Refused? {
        AckingAdds(s.(receipts := s.receipts + {items[0].path}), items[1..], outcomes[1..], now);
      } else if Acknowledged(s, items[0], now).Ok? {
        AckingAdds(Acknowledged(s, items[0], now).value, items[1..], outcomes[1..], now);
      }
    }
  }

  /** An envelope is acknowledged exactly when its file is still there and no acknowledgement for
      another file, envelope or path stands in its place; one that stands is left as it is. */
  lemma AcknowledgesExactly(s: State, item: Item, now: int)
    ensures var e := item.envelope; var key := Path(e.node, e.id);
      && (Acknowledged(s, item, now).Ok? <==> item.path in s.spool && (key in s.acks ==> EvidenceOf(s.acks[key], item, s.spool[item.path])))
      && (Acknowledged(s, item, now).Ok? ==>
            var r := Acknowledged(s, item, now).value;
            && r == s.(acks := r.acks) && key in r.acks && r.acks - {key} == s.acks - {key}
            && EvidenceOf(r.acks[key], item, s.spool[item.path]) && r.acks[key].at == if key in s.acks then s.acks[key].at else now)
  {
  }

  /** The acknowledgement is for this file, envelope and path. */
  predicate EvidenceOf(a: Ack, item: Item, file: File) {
    && a.id == item.envelope.id && a.node == item.envelope.node && a.source == item.path
    && a.payload == EnvelopeSha(item.envelope) && a.file == FileSha(file)
  }

  /** A finished acknowledgement loop leaves a receipt for every refused item and evidence for every other one. */
  lemma {:induction false} AckingExactly(s: State, items: seq<Item>, outcomes: seq<Outcome>, now: int)
    requires |outcomes| == |items| && AckFrom(s, items, outcomes, now).1
    ensures var r := AckFrom(s, items, outcomes, now).0;
      && r.receipts == s.receipts + (set i | 0 <= i < |items| && outcomes[i] == Refused :: items[i].path)
      && forall i | 0 <= i < |items| && outcomes[i] != Refused ::
           && items[i].path in s.spool && Path(items[i].envelope.node, items[i].envelope.id) in r.acks
           && EvidenceOf(r.acks[Path(items[i].envelope.node, items[i].envelope.id)], items[i], s.spool[items[i].path])
    decreases |items|
  {
    if items != [] {
      var rest, answers := items[1..], outcomes[1..];
      var refused := set i | 0 <= i < |items| && outcomes[i] == Refused :: items[i].path;
      var refusedRest := set i | 0 <= i < |rest| && answers[i] == Refused :: rest[i].path;
      assert forall i | 0 <= i < |rest| :: rest[i] == items[i + 1] && answers[i] == outcomes[i + 1];
      assert refused == refusedRest + if outcomes[0] == Refused then {items[0].path} else {} by {
        forall i | 0 <= i < |items| && outcomes[i] == Refused && i > 0
          ensures items[i].path in refusedRest
        {
          assert rest[i - 1] == items[i];
        }
      }
      if outcomes[0].Refused? {
        AckingExactly(s.(receipts := s.receipts + {items[0].path}), rest, answers, now);
      } else {
        AcknowledgesExactly(s, items[0], now);
        var acked := Acknowledged(s, items[0], now).value;
        AckingExactly(acked, rest, answers, now);
        AckingAdds(acked, rest, answers, now);
      }
      forall i | 0 < i < |items| && outcomes[i] != Refused
        ensures items[i].path in s.spool && Path(items[i].envelope.node, items[i].envelope.id) in AckFrom(s, items, outcomes, now).0.acks
        ensures EvidenceOf(AckFrom(s, items, outcomes, now).0.acks[Path(items[i].envelope.node, items[i].envelope.id)], items[i], s.spool[items[i].path])
      {
        assert rest[i - 1] == items[i];
      }
    }
  }

  /** A compile deletes a file if and only if it runs to its end, lists some readable file of that
      producer, and the acknowledgement it found there, not one it has just written, is for
      exactly that file and at least as old as the retention; every other file stays as it is. */
  lemma CompileTakesExactly(x: Config, s: State, listing: seq<Path>, now: int, days: int, batchSize: int, path: Path)
    ensures var r := Compiled(x, s, listing, now, days, batchSize);
      && (path in r.0.spool <==>
            path in s.spool && !(r.1 && days >= 1 && AnsweredLongAgo(s, path, now, days)
                                 && exists p :: p in listing && p in s.spool && s.spool[p].Readable? && s.spool[p].envelope.node == path.node))
      && (path in r.0.spool ==> r.0.spool[path] == s.spool[path])
  {
    hide ApplyAll, Sorted, Unreadable;
    assert path.node in Producers(s, listing) <==>
      exists p :: p in listing && p in s.spool && s.spool[p].Readable? && s.spool[p].envelope.node == path.node;
    if 1 <= batchSize <= 1000 {
      var applied := AfterApply(x, s, listing);
      ApplyAllAnswers(x, s.canon, Envelopes(Sorted(s, listing)));
      AckingAdds(applied.0, Sorted(s, listing), applied.1, now);
      hide AckFrom, Producers;
      var acked := AfterAcks(x, s, listing, now);
      PruneTakesExactly(acked.0, Producers(s, listing), now, days, path);
      hide Pruned;
    }
  }

  // ---------- the directories and the store, updated in place ----------

  class SpoolStore {
    const config: Config
    var spool: map<Path, File>
    var acks: map<Path, Ack>
    var canon: Canon
    var receipts: set<Path>

    constructor (c: Config)
      ensures config == c && Value() == State(map[], map[], Canon([], map[], map[], map[], {}, {}), {})
    {
      config := c;
      spool, acks, receipts := map[], map[], {};
      canon := Canon([], map[], map[], map[], {}, {});
    }

    function Value(): State
      reads this
    {
      State(spool, acks, canon, receipts)
    }

    method WriteEnvelope(e: Envelope) returns (ok: bool)
      modifies this
      ensures ok == Written(old(spool), e).Ok?
      ensures Value() == old(Value()).(spool := if ok then Written(old(spool), e).value else old(spool))
    {
      if Home(e) in spool {
        return spool[Home(e)] == Readable(e, 0);
      }
      spool := spool[Home(e) := Readable(e, 0)];
      ok := true;
    }

    method ApplyCapture(e: Envelope) returns (outcome: Outcome)
      modifies this
      ensures (canon, outcome) == Apply(config, old(canon), e)
      ensures Value() == old(Value()).(canon := canon)
    {
      if !config.Admits(e) {
        return Refused;
      }
      if e.id in canon.consumed {
        return if canon.consumed[e.id] == EnvelopeSha(e) then Duplicate else Refused;
      }
      if ContentKey(e) in canon.firsts {
        return Duplicate;
      }
      if !IdentitiesFree(canon, e) {
        return Refused;
      }
      canon := canon.(order := canon.order + [e.id], events := canon.events[e.id := e]);
      canon := canon.(nodes := canon.nodes + (set s | s in e.subjects));
      canon := canon.(consumed := canon.consumed[e.id := EnvelopeSha(e)]);
      canon := canon.(firsts := canon.firsts[ContentKey(e) := e.id]);
      outcome := Captured;
    }

    /** Bounded groups; each is durable before the next starts. */
    method ApplyBatch(es: seq<Envelope>, batchSize: int) returns (r: Result<seq<Outcome>>)
      modifies this
      ensures r.Ok? == (1 <= batchSize <= 1000)
      ensures Value() == old(Value()).(canon := if r.Ok? then ApplyAll(config, old(canon), es).0 else old(canon))
      ensures r.Ok? ==> r.value == ApplyAll(config, old(canon), es).1
    {
      if batchSize < 1 || batchSize > 1000 {
        return Rejected;
      }
      var start, outcomes := 0, [];
      while start < |es|
        invariant 0 <= start <= |es|
        invariant (canon, outcomes) == ApplyAll(config, old(canon), es[..start])
        invariant Value() == old(Value()).(canon := canon)
      {
        var end := if |es| - start < batchSize then |es| else start + batchSize;
        for k := start to end
          invariant (canon, outcomes) == ApplyAll(config, old(canon), es[..k])
          invariant Value() == old(Value()).(canon := canon)
        {
          var outcome := ApplyCapture(es[k]);
          outcomes := outcomes + [outcome];
          assert es[..k + 1][..k] == es[..k];
        }
        start := end;
      }
      assert es[..|es|] == es;
      r := Ok(outcomes);
    }

    method WriteAcknowledgement(item: Item, now: int) returns (ok: bool)
      modifies this
      ensures ok == Acknowledged(old(Value()), item, now).Ok?
      ensures Value() == if ok then Acknowledged(old(Value()), item, now).value else old(Value())
    {
      if item.path !in spool {
        return false;
      }
      var body := Evidence(item.path, spool[item.path], item.envelope, now);
      if Home(item.envelope) in acks {
        return SameEvidence(acks[Home(item.envelope)], body);
      }
      acks := acks[Home(item.envelope) := body];
      ok := true;
    }

    method PruneAcknowledged(node: string, now: int, days: int) returns (ok: bool)
      modifies this
      ensures ok == (days >= 1)
      ensures Value() == if ok then Pruned(old(Value()), {node}, now, days) else old(Value())
    {
      if days < 1 {
        return false;
      }
      ghost var before := Value();
      ghost var all := AckKeys(before, {node});
      var todo := set k | k in acks && k.node == node;
      assert todo == all;
      while todo != {}
        invariant todo <= all
        invariant Value() == PrunedBy(before, all - todo, now, days)
      {
        var key :| key in todo;
        PrunedInTurn(before, all - todo, {key}, now, days);
        assert all - todo + {key} == all - (todo - {key});
        todo := todo - {key};
        PruneOne(key, now, days);
      }
      assert all - todo == all;
      ok := true;
    }

    method PruneOne(key: Path, now: int, days: int)
      modifies this`spool, this`acks
      ensures Value() == PrunedBy(old(Value()), {key}, now, days)
    {
      if Leftover(Value(), key) {
        acks := acks - {key};
      } else if Prunable(Value(), key, now, days) {
        spool := spool - {key};
        acks := acks - {key};
      }
    }

    /** Reads every listed file: quarantines what is unreadable, collects what is not yet acknowledged. */
    method ReadInputs(listing: seq<Path>) returns (inputs: seq<Item>, producers: set<string>)
      modifies this`receipts
      ensures inputs == Inputs(old(Value()), listing)
      ensures producers == Producers(old(Value()), listing)
      ensures receipts == old(receipts) + Unreadable(old(Value()), listing)
    {
      ghost var before := Value();
      inputs, producers := [], {};
      for k := 0 to |listing|
        invariant inputs == Inputs(before, listing[..k])
        invariant producers == Producers(before, listing[..k])
        invariant receipts == before.receipts + Unreadable(before, listing[..k])
      {
        var p := listing[k];
        assert listing[..k + 1] == listing[..k] + [p];
        if p in spool {
          if spool[p].Malformed? {
            receipts := receipts + {p};
          } else {
            producers := producers + {spool[p].envelope.node};
            if !AckCommitted(Value(), p, spool[p].envelope) {
              inputs := inputs + [Item(p, spool[p].envelope)];
            }
          }
        }
      }
      assert listing[..|listing|] == listing;
    }

    /** The acknowledgement loop. */
    method AcknowledgeAll(items: seq<Item>, outcomes: seq<Outcome>, now: int) returns (ok: bool)
      requires |outcomes| == |items|
      modifies this
      ensures (Value(), ok) == AckFrom(old(Value()), items, outcomes, now)
    {
      ghost var before := Value();
      for k := 0 to |items|
        invariant AckFrom(Value(), items[k..], outcomes[k..], now) == AckFrom(before, items, outcomes, now)
      {
        assert items[k..][1..] == items[k + 1..] && outcomes[k..][1..] == outcomes[k + 1..];
        if outcomes[k].Refused? {
          receipts := receipts + {items[k].path};
        } else {
          var acked := WriteAcknowledgement(items[k], now);
          if !acked {
            return false;
          }
        }
      }
      ok := true;
    }

    /** One compile under the lock. */
    method CompileSpools(listing: seq<Path>, now: int, days: int, batchSize: int) returns (ok: bool)
      modifies this
      ensures (Value(), ok) == Compiled(config, old(Value()), listing, now, days, batchSize)
    {
      hide Inputs, Unreadable, Producers, ApplyAll, AckFrom, PrunedBy, AckKeys;
      ghost var before := Value();
      var inputs, producers := ReadInputs(listing);
      var ordered := Sort(inputs, ItemKey);
      var results := ApplyBatch(Envelopes(ordered), batchSize);
      if results.Rejected? {
        return false;
      }
      var outcomes := results.value;
      ApplyAllAnswers(config, before.canon, Envelopes(ordered));
      var acked := AcknowledgeAll(ordered, outcomes, now);
      if !acked || (days < 1 && producers != {}) {
        return false;
      }
      PruneProducers(producers, now, days);
      ok := true;
    }

    method PruneProducers(producers: set<string>, now: int, days: int)
      requires days >= 1 || producers == {}
      modifies this
      ensures Value() == Pruned(old(Value()), producers, now, days)
    {
      ghost var before := Value();
      var todo := producers;
      assert AckKeys(before, producers - todo) == {};
      while todo != {}
        invariant todo <= producers
        invariant Value() == Pruned(before, producers - todo, now, days)
      {
        var node :| node in todo;
        ghost var finished := producers - todo;
        PrunedInTurn(before, AckKeys(before, finished), AckKeys(before, {node}), now, days);
        assert AckKeys(Value(), {node}) == AckKeys(before, {node});
        assert AckKeys(before, finished + {node}) == AckKeys(before, finished) + AckKeys(before, {node});
        todo := todo - {node};
        assert producers - todo == finished + {node};
        var done := PruneAcknowledged(node, now, days);
      }
      assert producers - todo == producers;
    }
  }
}
