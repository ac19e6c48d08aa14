/** Eligibility, ranking and byte-exact packing of retrieval records. */
module Retrieval {
  import opened Outcomes
  import opened Sorting

  type Text = seq<int>
  datatype Section = Core | General | Domain
  datatype Mode = Authoritative | Analytical

  datatype Record = Record(
    id: string, section: Section, status: string, tier: string, hasEvidence: bool, hasCases: bool,
    domain: Option<string>, pinned: bool, recurrence: int, day: int,
    current: bool, rejected: bool, tombstoned: bool, closed: bool, provenanceComplete: bool, importedSelected: bool,
    partition: string, ontologyType: string)

  const SECTIONS: seq<Section> := [Core, General, Domain]

  predicate Eligible(r: Record, domain: Option<string>, mode: Mode) {
    && r.current && !r.rejected && !r.tombstoned && !r.closed
    && r.provenanceComplete && r.hasEvidence
    && (r.status in {"captured", "extracted", "ratified"} || (mode.Analytical? && r.status == "inferred"))
    && (r.tier in {"captured_judgment", "ratified_knowledge", "imported_floor"}
        || (mode.Analytical? && r.tier in {"inferred_candidate", "observed_candidate"}))
    && (r.tier == "captured_judgment" ==> r.status == "captured")
    && (r.status == "captured" && r.partition != "business_declared" ==> r.hasCases)
    && (r.tier == "ratified_knowledge" ==> r.status == "ratified")
    && (r.tier == "imported_floor" ==> r.importedSelected)
    && (r.status == "inferred" ==> r.tier == "inferred_candidate")
    && (r.tier == "observed_candidate" ==> r.status == "extracted")
    && (r.partition == "self_model" && mode.Authoritative? ==> r.ontologyType == "SelfModelAssertion" && r.status == "ratified")
    && (r.section == Domain ==> domain.Some? && r.domain == domain)
    && (r.domain.Some? ==> r.section == Domain)
  }

  /** What is asked for: the text score of a record is any function of the record. */
  datatype Query = Query(domain: Option<string>, mode: Mode, partitions: seq<string>, score: Record -> int, render: Record -> Text)
  {
    predicate Wants(r: Record) {
      Eligible(r, domain, mode) && (partitions == [] || r.partition in partitions)
    }
  }

  function Flag(b: bool): int { if b then 1 else 0 }

  function StatusOrder(status: string): int {
    if status in {"captured", "ratified"} then 0 else if status == "extracted" then 1 else 9
  }

  function TierOrder(tier: string): int {
    if tier in {"captured_judgment", "ratified_knowledge"} then 0 else if tier == "imported_floor" then 2 else 9
  }

  /** UTF-8 keeps code point order, so the identity enters the key by its code points. */
  function CodePoints(s: string): seq<int> { seq(|s|, i requires 0 <= i < |s| => s[i] as int) }

  function RankKey(q: Query, r: Record): seq<int> {
    [-Flag(r.pinned), -Flag(q.domain.Some? && r.domain == q.domain), -q.score(r), StatusOrder(r.status), TierOrder(r.tier),
     -(if r.recurrence > 0 then r.recurrence else 0), -r.day] + CodePoints(r.id)
  }

  function Limit(total: nat, section: Section): nat {
    var unit, remainder := total / 4, total % 4;
    match section
    case Core => unit + (if remainder > 0 then 1 else 0)
    case General => unit * 2 + (if remainder > 1 then 1 else 0)
    case Domain => unit + (if remainder > 2 then 1 else 0)
  }

  function Filter<T>(s: seq<T>, p: T -> bool): seq<T> {
    if s == [] then [] else (if p(s[0]) then [s[0]] else []) + Filter(s[1..], p)
  }

  lemma {:induction false} FilterAppend<T>(s: seq<T>, x: T, p: T -> bool)
    ensures Filter(s + [x], p) == Filter(s, p) + (if p(x) then [x] else [])
  {
    if s != [] {
      assert (s + [x])[1..] == s[1..] + [x];
      FilterAppend(s[1..], x, p);
    }
  }

  lemma {:induction false} FilterCounts<T>(s: seq<T>, p: T -> bool, x: T)
    ensures multiset(Filter(s, p))[x] == if p(x) then multiset(s)[x] else 0
  {
    if s != [] {
      FilterCounts(s[1..], p, x);
      assert s == [s[0]] + s[1..];
    }
  }

  lemma FilterMembers<T>(s: seq<T>, p: T -> bool, x: T)
    ensures x in Filter(s, p) <==> x in s && p(x)
  {
    FilterCounts(s, p, x);
    assert x in Filter(s, p) <==> x in multiset(Filter(s, p));
    assert x in s <==> x in multiset(s);
  }

  // ---------- greedy packing ----------

  function Size(records: seq<Record>, render: Record -> Text): nat {
    if records == [] then 0 else |render(records[0])| + Size(records[1..], render)
  }

  /** Each record in turn is taken when its rendering fits in what is left. */
  function Pack(records: seq<Record>, room: nat, render: Record -> Text): seq<Record> {
    if records == [] then []
    else if |render(records[0])| <= room then [records[0]] + Pack(records[1..], room - |render(records[0])|, render)
    else Pack(records[1..], room, render)
  }

  function Payload(records: seq<Record>, render: Record -> Text): Text {
    if records == [] then [] else render(records[0]) + Payload(records[1..], render)
  }

  /** The wanted candidates, best first. */
  function Ranked(q: Query, candidates: seq<Record>): seq<Record> {
    Sort(Filter(candidates, r => q.Wants(r)), r => RankKey(q, r))
  }

  function InSection(ranked: seq<Record>, section: Section): seq<Record> {
    Filter(ranked, (r: Record) => r.section == section)
  }

  /** The bytes the i-th section may use: its own share and what the sections before it left. */
  function Room(q: Query, ranked: seq<Record>, total: nat, i: nat): nat
    requires i < 3
    decreases i, 1
  {
    Limit(total, SECTIONS[i]) + if i == 0 then 0 else Left(q, ranked, total, i - 1)
  }

  function Left(q: Query, ranked: seq<Record>, total: nat, i: nat): nat
    requires i < 3
    decreases i, 3
  {
    PackFits(InSection(ranked, SECTIONS[i]), Room(q, ranked, total, i), q.render);
    Room(q, ranked, total, i) - Size(Chosen(q, ranked, total, i), q.render)
  }

  function Chosen(q: Query, ranked: seq<Record>, total: nat, i: nat): seq<Record>
    requires i < 3
    decreases i, 2
  {
    Pack(InSection(ranked, SECTIONS[i]), Room(q, ranked, total, i), q.render)
  }

  function Selection(q: Query, ranked: seq<Record>, total: nat, n: nat): seq<Record>
    requires n <= 3
  {
    if n == 0 then [] else Selection(q, ranked, total, n - 1) + Chosen(q, ranked, total, n - 1)
  }

  lemma {:induction false} PackFits(records: seq<Record>, room: nat, render: Record -> Text)
    ensures Size(Pack(records, room, render), render) <= room
  {
    if records != [] {
      PackFits(records[1..], if |render(records[0])| <= room then room - |render(records[0])| else room, render);
    }
  }

  // ---------- the engine ----------

  const DEFAULT_BUDGET := 32 * 1024
  const MAX_EXPLICIT_BUDGET := 128 * 1024

  predicate BudgetOk(budget: int, allowHigher: bool) {
    0 < budget <= MAX_EXPLICIT_BUDGET && (budget <= DEFAULT_BUDGET || allowHigher)
  }

  datatype Answer = Answer(payload: Text, selected: seq<Record>, eligibleCount: nat, omittedCount: int, sectionBytes: map<Section, nat>)

  function AnswerFor(q: Query, ranked: seq<Record>, total: nat): Answer {
    var selection := Selection(q, ranked, total, 3);
    Answer(Payload(selection, q.render), selection, |ranked|, |ranked| - |selection|,
           SectionBytes(q, ranked, total, 3))
  }

  function SectionBytes(q: Query, ranked: seq<Record>, total: nat, n: nat): map<Section, nat>
    requires n <= 3
  {
    if n == 0 then map[]
    else SectionBytes(q, ranked, total, n - 1)[SECTIONS[n - 1] := Size(Chosen(q, ranked, total, n - 1), q.render)]
  }

  lemma {:induction false} PayloadAppend(a: seq<Record>, r: Record, render: Record -> Text)
    ensures Payload(a + [r], render) == Payload(a, render) + render(r)
    ensures Size(a + [r], render) == Size(a, render) + |render(r)|
  {
    if a != [] {
      assert (a + [r])[1..] == a[1..] + [r];
      PayloadAppend(a[1..], r, render);
    }
  }

  /** One section of the packing loop. */
  method PackSection(q: Query, records: seq<Record>, available: nat, payload0: Text) returns (chosen: seq<Record>, payload: Text, used: nat)
    ensures chosen == Pack(records, available, q.render)
    ensures used == Size(chosen, q.render) <= available
    ensures payload == payload0 + Payload(chosen, q.render)
  {
    chosen, payload, used := [], payload0, 0;
    for k := 0 to |records|
      invariant used == Size(chosen, q.render) <= available
      invariant payload == payload0 + Payload(chosen, q.render)
      invariant chosen + Pack(records[k..], available - used, q.render) == Pack(records, available, q.render)
    {
      var rendered := q.render(records[k]);
      assert records[k..][1..] == records[k + 1..];
      if |rendered| <= available - used {
        PayloadAppend(chosen, records[k], q.render);
        chosen, payload, used := chosen + [records[k]], payload + rendered, used + |rendered|;
      }
    }
  }

  lemma {:induction false} PayloadConcat(a: seq<Record>, b: seq<Record>, render: Record -> Text)
    ensures Payload(a + b, render) == Payload(a, render) + Payload(b, render)
    ensures Size(a + b, render) == Size(a, render) + Size(b, render)
    ensures |Payload(a, render)| == Size(a, render)
  {
    if a != [] {
      assert (a + b)[1..] == a[1..] + b;
      PayloadConcat(a[1..], b, render);
    } else {
      assert a + b == b;
    }
  }

  /** There is an answer for every admissible budget. */
  method Retrieve(q: Query, candidates: seq<Record>, budget: int, allowHigher: bool) returns (r: Result<Answer>)
    ensures r.Ok? == BudgetOk(budget, allowHigher)
    ensures r.Ok? ==> r.value == AnswerFor(q, Ranked(q, candidates), budget)
  {
    if !BudgetOk(budget, allowHigher) {
      return Rejected;
    }
    var kept: seq<Record> := [];
    for k := 0 to |candidates|
      invariant kept == Filter(candidates[..k], r => q.Wants(r))
    {
      FilterAppend(candidates[..k], candidates[k], r => q.Wants(r));
      assert candidates[..k + 1] == candidates[..k] + [candidates[k]];
      if q.Wants(candidates[k]) {
        kept := kept + [candidates[k]];
      }
    }
    assert candidates[..|candidates|] == candidates;
    var answer := PackSections(q, Sort(kept, r => RankKey(q, r)), budget);
    r := Ok(answer);
  }

  /** The closing budget check never fails. */
  method PackSections(q: Query, ranked: seq<Record>, budget: nat) returns (answer: Answer)
    ensures answer == AnswerFor(q, ranked, budget)
  {
    hide Chosen, Size, Limit;
    var carry, payload, selected, sectionBytes := 0, [], [], map[];
    for i := 0 to 3
      invariant carry == if i == 0 then 0 else Left(q, ranked, budget, i - 1)
      invariant selected == Selection(q, ranked, budget, i)
      invariant payload == Payload(selected, q.render)
      invariant sectionBytes == SectionBytes(q, ranked, budget, i)
    {
      var available := Limit(budget, SECTIONS[i]) + carry;
      var chosen, extended, used := PackSection(q, InSection(ranked, SECTIONS[i]), available, payload);
      ChosenIs(q, ranked, budget, i);
      PayloadConcat(selected, chosen, q.render);
      selected, payload, carry := selected + chosen, extended, available - used;
      sectionBytes := sectionBytes[SECTIONS[i] := used];
    }
    SelectionFits(q, ranked, budget, 3);
    PayloadConcat(selected, [], q.render);
    if |payload| > budget {
      assert false;
    }
    answer := Answer(payload, selected, |ranked|, |ranked| - |selected|, sectionBytes);
  }

  lemma ChosenIs(q: Query, ranked: seq<Record>, total: nat, i: nat)
    requires i < 3
    ensures Chosen(q, ranked, total, i) == Pack(InSection(ranked, SECTIONS[i]), Room(q, ranked, total, i), q.render)
    ensures Left(q, ranked, total, i) == Room(q, ranked, total, i) - Size(Chosen(q, ranked, total, i), q.render)
  {
  }

  // ---------- what an answer guarantees ----------

  lemma SelectionParts(q: Query, ranked: seq<Record>, total: nat)
    ensures Selection(q, ranked, total, 3) == Chosen(q, ranked, total, 0) + Chosen(q, ranked, total, 1) + Chosen(q, ranked, total, 2)
    ensures SectionBytes(q, ranked, total, 3) == map[
      Core := Size(Chosen(q, ranked, total, 0), q.render),
      General := Size(Chosen(q, ranked, total, 1), q.render),
      Domain := Size(Chosen(q, ranked, total, 2), q.render)]
  {
    hide Chosen;
    assert SECTIONS == [Core, General, Domain];
    assert Selection(q, ranked, total, 1) == Selection(q, ranked, total, 0) + Chosen(q, ranked, total, 0);
    assert Selection(q, ranked, total, 2) == Selection(q, ranked, total, 1) + Chosen(q, ranked, total, 1);
    assert SectionBytes(q, ranked, total, 1) == SectionBytes(q, ranked, total, 0)[Core := Size(Chosen(q, ranked, total, 0), q.render)];
    assert SectionBytes(q, ranked, total, 2) == SectionBytes(q, ranked, total, 1)[General := Size(Chosen(q, ranked, total, 1), q.render)];
  }

  lemma LimitsSumToBudget(total: nat)
    ensures Limit(total, Core) + Limit(total, General) + Limit(total, Domain) == total
  {
  }

  /** What the first n sections used and what they leave over add up to their shares. */
  lemma {:induction false} SelectionFits(q: Query, ranked: seq<Record>, total: nat, n: nat)
    requires n <= 3
    ensures Size(Selection(q, ranked, total, n), q.render) + (if n == 0 then 0 else Left(q, ranked, total, n - 1))
         == (if n > 0 then Limit(total, Core) else 0) + (if n > 1 then Limit(total, General) else 0) + (if n > 2 then Limit(total, Domain) else 0)
    ensures n == 3 ==> Size(Selection(q, ranked, total, n), q.render) <= total
  {
    if n > 0 {
      SelectionFits(q, ranked, total, n - 1);
      PayloadConcat(Selection(q, ranked, total, n - 1), Chosen(q, ranked, total, n - 1), q.render);
    }
    LimitsSumToBudget(total);
  }

  /** Greedy packing, exactly: a record is taken if and only if it fits in what
      the records taken before it have left. */
  lemma {:induction false} PackSplits(before: seq<Record>, r: Record, after: seq<Record>, room: nat, render: Record -> Text)
    ensures var taken := Pack(before, room, render);
      && Size(taken, render) <= room
      && Pack(before + [r] + after, room, render)
         == taken + (if |render(r)| <= room - Size(taken, render) then [r] + Pack(after, room - Size(taken, render) - |render(r)|, render)
                     else Pack(after, room - Size(taken, render), render))
  {
    if before == [] {
      assert before + [r] + after == [r] + after;
    } else {
      assert (before + [r] + after)[1..] == before[1..] + [r] + after;
      var fits := |render(before[0])| <= room;
      PackSplits(before[1..], r, after, if fits then room - |render(before[0])| else room, render);
    }
  }

  lemma {:induction false} PackOmitted(records: seq<Record>, room: nat, render: Record -> Text, r: Record)
    requires r in records && r !in Pack(records, room, render)
    ensures |render(r)| > room - Size(Pack(records, room, render), render)
  {
    var first := |render(records[0])|;
    if first <= room {
      assert Pack(records, room, render)[0] == records[0];
      PackOmitted(records[1..], room - first, render, r);
    } else if r in records[1..] {
      PackOmitted(records[1..], room, render, r);
    }
  }

  /** Every wanted record left out is longer than the space its own section has left at the end. */
  lemma OmittedDoesNotFit(q: Query, candidates: seq<Record>, total: nat, r: Record)
    requires r in candidates && q.Wants(r) && r !in AnswerFor(q, Ranked(q, candidates), total).selected
    ensures exists i: nat | i < 3 :: SECTIONS[i] == r.section && |q.render(r)| > Left(q, Ranked(q, candidates), total, i)
  {
    var ranked := Ranked(q, candidates);
    RankedHolds(q, candidates, r);
    var i: nat := match r.section case Core => 0 case General => 1 case Domain => 2;
    assert SECTIONS[i] == r.section;
    FilterMembers(ranked, (x: Record) => x.section == SECTIONS[i], r);
    SelectionParts(q, ranked, total);
    PackOmitted(InSection(ranked, SECTIONS[i]), Room(q, ranked, total, i), q.render, r);
  }

  lemma RankedHolds(q: Query, candidates: seq<Record>, r: Record)
    ensures r in Ranked(q, candidates) <==> r in candidates && q.Wants(r)
  {
    var kept := Filter(candidates, r => q.Wants(r));
    FilterMembers(candidates, r => q.Wants(r), r);
    SortIsSorted(kept, r => RankKey(q, r));
    assert r in Ranked(q, candidates) <==> r in multiset(Ranked(q, candidates));
    assert r in kept <==> r in multiset(kept);
  }

  lemma {:induction false} PackFromRecords(records: seq<Record>, room: nat, render: Record -> Text, r: Record)
    requires r in Pack(records, room, render)
    ensures r in records
  {
    if |render(records[0])| > room || r != records[0] {
      PackFromRecords(records[1..], if |render(records[0])| <= room then room - |render(records[0])| else room, render, r);
    }
  }

  /** Nothing ineligible is ever returned, and the payload is within the budget. */
  lemma AnswerIsEligibleAndWithinBudget(q: Query, candidates: seq<Record>, total: nat)
    ensures SectionBytes(q, Ranked(q, candidates), total, 3).Keys == {Core, General, Domain}
    ensures var a := AnswerFor(q, Ranked(q, candidates), total);
      && |a.payload| <= total
      && |a.payload| == a.sectionBytes[Core] + a.sectionBytes[General] + a.sectionBytes[Domain]
      && forall r | r in a.selected :: r in candidates && q.Wants(r)
  {
    var ranked := Ranked(q, candidates);
    var a := AnswerFor(q, ranked, total);
    SelectionFits(q, ranked, total, 3);
    PayloadConcat(a.selected, [], q.render);
    PayloadConcat(Chosen(q, ranked, total, 0), Chosen(q, ranked, total, 1), q.render);
    PayloadConcat(Chosen(q, ranked, total, 0) + Chosen(q, ranked, total, 1), Chosen(q, ranked, total, 2), q.render);
    SelectionParts(q, ranked, total);
    assert SECTIONS[0] == Core && SECTIONS[1] == General && SECTIONS[2] == Domain;
    forall r | r in a.selected
      ensures r in candidates && q.Wants(r)
    {
      var i: nat :| i < 3 && r in Chosen(q, ranked, total, i);
      PackFromRecords(InSection(ranked, SECTIONS[i]), Room(q, ranked, total, i), q.render, r);
      FilterMembers(ranked, (x: Record) => x.section == SECTIONS[i], r);
      RankedHolds(q, candidates, r);
    }
  }

  /** With distinct record identities the answer does not depend on the order of the candidates. */
  lemma OrderDoesNotMatter(q: Query, a: seq<Record>, b: seq<Record>, total: nat)
    requires multiset(a) == multiset(b)
    requires forall x, y | x in a && y in a && x.id == y.id :: x == y
    ensures AnswerFor(q, Ranked(q, a), total) == AnswerFor(q, Ranked(q, b), total)
  {
    var wants, key := (r: Record) => q.Wants(r), (r: Record) => RankKey(q, r);
    var ka, kb := Filter(a, wants), Filter(b, wants);
    forall x
      ensures multiset(ka)[x] == multiset(kb)[x]
    {
      FilterCounts(a, wants, x);
      FilterCounts(b, wants, x);
    }
    assert multiset(ka) == multiset(kb);
    forall x, y | x in multiset(ka) && y in multiset(ka) && key(x) == key(y)
      ensures x == y
    {
      FilterMembers(a, wants, x);
      FilterMembers(a, wants, y);
      KeyGivesId(q, x, y);
    }
    SortIgnoresOrder(ka, kb, key);
  }

  lemma KeyGivesId(q: Query, x: Record, y: Record)
    requires RankKey(q, x) == RankKey(q, y)
    ensures x.id == y.id
  {
    assert RankKey(q, x)[7..] == CodePoints(x.id);
    assert RankKey(q, y)[7..] == CodePoints(y.id);
    assert |CodePoints(x.id)| == |x.id| && |CodePoints(y.id)| == |y.id|;
    forall i | 0 <= i < |x.id|
      ensures x.id[i] == y.id[i]
    {
      assert CodePoints(x.id)[i] == x.id[i] as int && CodePoints(y.id)[i] == y.id[i] as int;
    }
  }
}
