/** Which records an answer prefers, whom it may contain and how its budget is shared. */
module RetrievalOrder {
  import opened Outcomes
  import opened Sorting
  import opened Retrieval

  // ---------- the order of two records ----------

  predicate InDomain(q: Query, r: Record) { q.domain.Some? && r.domain == q.domain }

  predicate Direct(status: string) { status == "captured" || status == "ratified" }

  /** Captured and ratified alike come before extracted, and that before any other status. */
  predicate StatusAhead(a: string, b: string) { (Direct(a) && !Direct(b)) || (a == "extracted" && !Direct(b) && b != "extracted") }

  predicate Judged(tier: string) { tier == "captured_judgment" || tier == "ratified_knowledge" }

  /** Captured judgments and ratified knowledge alike come before imports, and those before any other tier. */
  predicate TierAhead(a: string, b: string) { (Judged(a) && !Judged(b)) || (a == "imported_floor" && !Judged(b) && b != "imported_floor") }

  predicate MoreRecurrent(a: int, b: int) { a > b && a > 0 }

  /** One identity before another, by code points; a proper prefix comes first. */
  predicate IdBefore(a: string, b: string) {
    |b| > 0 && (|a| == 0 || a[0] < b[0] || (a[0] == b[0] && IdBefore(a[1..], b[1..])))
  }

  /** x is preferred to y: pinned first, then of the selected domain, then the higher
      score, the better status, the better tier, the higher recurrence, the later day, and
      last the smaller identity. */
  predicate Ahead(q: Query, x: Record, y: Record) {
    if x.pinned != y.pinned then x.pinned
    else if InDomain(q, x) != InDomain(q, y) then InDomain(q, x)
    else if q.score(x) != q.score(y) then q.score(x) > q.score(y)
    else if StatusAhead(x.status, y.status) || StatusAhead(y.status, x.status) then StatusAhead(x.status, y.status)
    else if TierAhead(x.tier, y.tier) || TierAhead(y.tier, x.tier) then TierAhead(x.tier, y.tier)
    else if MoreRecurrent(x.recurrence, y.recurrence) || MoreRecurrent(y.recurrence, x.recurrence) then MoreRecurrent(x.recurrence, y.recurrence)
    else if x.day != y.day then x.day > y.day
    else IdBefore(x.id, y.id)
  }

  lemma FirstDecides(a: int, b: int, restA: seq<int>, restB: seq<int>)
    ensures LexLeq([a] + restA, [b] + restB) <==> a < b || (a == b && LexLeq(restA, restB))
  {
    assert ([a] + restA)[1..] == restA && ([b] + restB)[1..] == restB;
  }

  lemma {:induction false} IdDecides(a: string, b: string)
    ensures LexLeq(CodePoints(a), CodePoints(b)) <==> IdBefore(a, b) || a == b
  {
    if a != [] && b != [] {
      assert CodePoints(a)[1..] == CodePoints(a[1..]) && CodePoints(b)[1..] == CodePoints(b[1..]);
      IdDecides(a[1..], b[1..]);
      assert a == [a[0]] + a[1..] && b == [b[0]] + b[1..];
    }
  }

  /** The last three parts of a key. */
  function Tail(r: Record): seq<int> { [-(if r.recurrence > 0 then r.recurrence else 0)] + ([-r.day] + CodePoints(r.id)) }

  predicate TailAhead(x: Record, y: Record) {
    if MoreRecurrent(x.recurrence, y.recurrence) || MoreRecurrent(y.recurrence, x.recurrence) then MoreRecurrent(x.recurrence, y.recurrence)
    else if x.day != y.day then x.day > y.day
    else IdBefore(x.id, y.id)
  }

  lemma TailOrder(x: Record, y: Record)
    requires x.id != y.id
    ensures LexLeq(Tail(x), Tail(y)) <==> TailAhead(x, y)
  {
    hide LexLeq, IdBefore, CodePoints;
    IdDecides(x.id, y.id);
    FirstDecides(-x.day, -y.day, CodePoints(x.id), CodePoints(y.id));
    var rx, ry := if x.recurrence > 0 then x.recurrence else 0, if y.recurrence > 0 then y.recurrence else 0;
    FirstDecides(-rx, -ry, [-x.day] + CodePoints(x.id), [-y.day] + CodePoints(y.id));
  }

  function Middle(r: Record): seq<int> { [StatusOrder(r.status)] + ([TierOrder(r.tier)] + Tail(r)) }

  predicate MiddleAhead(x: Record, y: Record) {
    if StatusAhead(x.status, y.status) || StatusAhead(y.status, x.status) then StatusAhead(x.status, y.status)
    else if TierAhead(x.tier, y.tier) || TierAhead(y.tier, x.tier) then TierAhead(x.tier, y.tier)
    else TailAhead(x, y)
  }

  lemma StatusOrders(a: string, b: string)
    ensures StatusOrder(a) < StatusOrder(b) <==> StatusAhead(a, b)
    ensures TierOrder(a) < TierOrder(b) <==> TierAhead(a, b)
  {
  }

  lemma MiddleOrder(x: Record, y: Record)
    requires x.id != y.id
    ensures LexLeq(Middle(x), Middle(y)) <==> MiddleAhead(x, y)
  {
    StatusOrders(x.status, y.status);
    StatusOrders(y.status, x.status);
    StatusOrders(x.tier, y.tier);
    StatusOrders(y.tier, x.tier);
    TailOrder(x, y);
    hide LexLeq, Tail, TailAhead, StatusOrder, TierOrder, StatusAhead, TierAhead;
    FirstDecides(TierOrder(x.tier), TierOrder(y.tier), Tail(x), Tail(y));
    FirstDecides(StatusOrder(x.status), StatusOrder(y.status), [TierOrder(x.tier)] + Tail(x), [TierOrder(y.tier)] + Tail(y));
  }

  lemma RankKeyParts(q: Query, r: Record)
    ensures RankKey(q, r) == [-Flag(r.pinned)] + ([-Flag(InDomain(q, r))] + ([-q.score(r)] + Middle(r)))
  {
    hide CodePoints, StatusOrder, TierOrder;
  }

  /** The rank key orders two records as `Ahead` does. */
  lemma RankKeyOrder(q: Query, x: Record, y: Record)
    requires x.id != y.id
    ensures LexLeq(RankKey(q, x), RankKey(q, y)) <==> Ahead(q, x, y)
  {
    RankKeyParts(q, x);
    RankKeyParts(q, y);
    MiddleOrder(x, y);
    AheadParts(q, x, y);
    hide LexLeq, Middle, MiddleAhead, RankKey, Ahead;
    FirstDecides(-q.score(x), -q.score(y), Middle(x), Middle(y));
    FirstDecides(-Flag(InDomain(q, x)), -Flag(InDomain(q, y)), [-q.score(x)] + Middle(x), [-q.score(y)] + Middle(y));
    FirstDecides(-Flag(x.pinned), -Flag(y.pinned), [-Flag(InDomain(q, x))] + ([-q.score(x)] + Middle(x)),
                 [-Flag(InDomain(q, y))] + ([-q.score(y)] + Middle(y)));
  }

  lemma AheadParts(q: Query, x: Record, y: Record)
    ensures Ahead(q, x, y) ==
      if x.pinned != y.pinned then x.pinned
      else if InDomain(q, x) != InDomain(q, y) then InDomain(q, x)
      else if q.score(x) != q.score(y) then q.score(x) > q.score(y)
      else MiddleAhead(x, y)
  {
  }

  /** Of any two records of a ranking with different identities the preferred one comes first. */
  lemma RankedByPreference(q: Query, candidates: seq<Record>, i: nat, j: nat)
    requires i < j < |Ranked(q, candidates)| && Ranked(q, candidates)[i].id != Ranked(q, candidates)[j].id
    ensures Ahead(q, Ranked(q, candidates)[i], Ranked(q, candidates)[j])
    ensures !Ahead(q, Ranked(q, candidates)[j], Ranked(q, candidates)[i])
  {
    var ranked := Ranked(q, candidates);
    SortIsSorted(Filter(candidates, r => q.Wants(r)), r => RankKey(q, r));
    RankKeyOrder(q, ranked[i], ranked[j]);
    RankKeyOrder(q, ranked[j], ranked[i]);
    if LexLeq(RankKey(q, ranked[j]), RankKey(q, ranked[i])) {
      LexAntisymmetric(RankKey(q, ranked[i]), RankKey(q, ranked[j]));
      KeyGivesId(q, ranked[i], ranked[j]);
    }
  }

  // ---------- what is taken and what is left out ----------

  lemma {:induction false} TooSmallForIt(records: seq<Record>, room: nat, render: Record -> Text, x: Record)
    requires |render(x)| > room
    ensures x !in Pack(records, room, render)
  {
    if records != [] {
      TooSmallForIt(records[1..], if |render(records[0])| <= room then room - |render(records[0])| else room, render, x);
    }
  }

  /** In one section a record taken after one left out is shorter. */
  lemma TakenAfterIsShorter(before: seq<Record>, y: Record, after: seq<Record>, room: nat, render: Record -> Text, x: Record)
    requires x in Pack(before + [y] + after, room, render) && y !in Pack(before + [y] + after, room, render) && x !in before && x != y
    ensures |render(x)| < |render(y)|
  {
    PackSplits(before, y, after, room, render);
    var taken := Pack(before, room, render);
    if x in taken {
      PackFromRecords(before, room, render, x);
    }
    if |render(y)| <= |render(x)| && |render(y)| > room - Size(taken, render) {
      TooSmallForIt(after, room - Size(taken, render), render, x);
    }
  }

  lemma {:induction false} FilterKeepsOrder<T>(s: seq<T>, p: T -> bool, i: nat, j: nat) returns (a: nat, b: nat)
    requires i < j < |Filter(s, p)|
    ensures a < b < |s| && s[a] == Filter(s, p)[i] && s[b] == Filter(s, p)[j]
  {
    var rest := Filter(s[1..], p);
    if p(s[0]) {
      if i == 0 {
        FilterMembers(s[1..], p, rest[j - 1]);
        var k: nat :| k < |s[1..]| && s[1..][k] == rest[j - 1];
        a, b := 0, k + 1;
      } else {
        var a', b' := FilterKeepsOrder(s[1..], p, i - 1, j - 1);
        a, b := a' + 1, b' + 1;
      }
    } else {
      var a', b' := FilterKeepsOrder(s[1..], p, i, j);
      a, b := a' + 1, b' + 1;
    }
  }

  function SectionIndex(section: Section): (i: nat)
    ensures i < 3 && SECTIONS[i] == section
  {
    match section case Core => 0 case General => 1 case Domain => 2
  }

  lemma ChosenHere(q: Query, candidates: seq<Record>, total: nat, r: Record)
    requires r in candidates && q.Wants(r)
    ensures var ranked := Ranked(q, candidates); var i := SectionIndex(r.section);
      && r in InSection(ranked, r.section)
      && (r in AnswerFor(q, ranked, total).selected <==> r in Pack(InSection(ranked, r.section), Room(q, ranked, total, i), q.render))
  {
    var ranked := Ranked(q, candidates);
    RankedHolds(q, candidates, r);
    hide Ranked, Room, Pack;
    SelectionParts(q, ranked, total);
    FilterMembers(ranked, (x: Record) => x.section == r.section, r);
    forall k: nat | k < 3 && r in Chosen(q, ranked, total, k)
      ensures k == SectionIndex(r.section)
    {
      PackFromRecords(InSection(ranked, SECTIONS[k]), Room(q, ranked, total, k), q.render, r);
      FilterMembers(ranked, (x: Record) => x.section == SECTIONS[k], r);
    }
  }

  /** Of two wanted records of one section with different identities, one that is selected although the
      other, no longer than it, is left out is the preferred one. */
  lemma SelectedIsPreferred(q: Query, candidates: seq<Record>, total: nat, x: Record, y: Record)
    requires x in candidates && y in candidates && q.Wants(x) && q.Wants(y) && x.section == y.section && x.id != y.id
    requires x in AnswerFor(q, Ranked(q, candidates), total).selected && y !in AnswerFor(q, Ranked(q, candidates), total).selected
    requires |q.render(y)| <= |q.render(x)|
    ensures Ahead(q, x, y)
  {
    hide Pack, Room, Ahead, Ranked, AnswerFor, InSection, Eligible;
    var section := InSection(Ranked(q, candidates), x.section);
    var room := Room(q, Ranked(q, candidates), total, SectionIndex(x.section));
    ChosenHere(q, candidates, total, x);
    ChosenHere(q, candidates, total, y);
    var before, after := SplitAt(section, y);
    if x !in before {
      TakenAfterIsShorter(before, y, after, room, q.render, x);
    } else {
      EarlierIsPreferred(q, candidates, x.section, before, after, x, y);
    }
  }

  lemma SplitAt(records: seq<Record>, y: Record) returns (before: seq<Record>, after: seq<Record>)
    requires y in records
    ensures records == before + [y] + after
  {
    var k: nat :| k < |records| && records[k] == y;
    before, after := records[..k], records[k + 1..];
  }

  lemma EarlierIsPreferred(q: Query, candidates: seq<Record>, section: Section, before: seq<Record>, after: seq<Record>, x: Record, y: Record)
    requires InSection(Ranked(q, candidates), section) == before + [y] + after && x in before && x.id != y.id
    ensures Ahead(q, x, y)
  {
    hide Ahead, Ranked, Eligible;
    var i: nat :| i < |before| && before[i] == x;
    var records := before + [y] + after;
    assert records[i] == x && records[|before|] == y;
    var a, b := FilterKeepsOrder(Ranked(q, candidates), (r: Record) => r.section == section, i, |before|);
    RankedByPreference(q, candidates, a, b);
  }

  // ---------- how the budget is shared ----------

  /** The shares are a quarter, a half and a quarter of the budget, and what does not
      divide goes to the first sections first. */
  lemma SharesExactly(total: nat)
    ensures Limit(total, Core) == (total + 3) / 4 && Limit(total, Domain) == (total + 1) / 4
    ensures Limit(total, General) == total - (total + 3) / 4 - (total + 1) / 4
    ensures total % 4 == 0 ==> Limit(total, General) == total / 2
  {
  }

  /** Every wanted record left out is longer than what its own section and those before
      it have left of their shares together. */
  lemma OmittedExceedsShares(q: Query, candidates: seq<Record>, total: nat, r: Record)
    requires r in candidates && q.Wants(r) && r !in AnswerFor(q, Ranked(q, candidates), total).selected
    ensures var bytes := AnswerFor(q, Ranked(q, candidates), total).sectionBytes;
      && bytes.Keys == {Core, General, Domain}
      && match r.section
         case Core => |q.render(r)| > (total + 3) / 4 - bytes[Core]
         case General => |q.render(r)| > total - (total + 1) / 4 - bytes[Core] - bytes[General]
         case Domain => |q.render(r)| > total - bytes[Core] - bytes[General] - bytes[Domain]
  {
    var ranked := Ranked(q, candidates);
    OmittedDoesNotFit(q, candidates, total, r);
    hide Ranked;
    SelectionParts(q, ranked, total);
    SharesExactly(total);
    ChosenIs(q, ranked, total, 0);
    ChosenIs(q, ranked, total, 1);
    ChosenIs(q, ranked, total, 2);
    RoomIs(q, ranked, total);
    hide Limit, Chosen, Room, Left;
  }

  lemma RoomIs(q: Query, ranked: seq<Record>, total: nat)
    ensures Room(q, ranked, total, 0) == Limit(total, Core)
    ensures Room(q, ranked, total, 1) == Limit(total, General) + Left(q, ranked, total, 0)
    ensures Room(q, ranked, total, 2) == Limit(total, Domain) + Left(q, ranked, total, 1)
  {
    hide Limit, Chosen, Left;
  }

  // ---------- whom an answer may contain ----------

  /** The status and tier a record may have, by mode. */
  predicate Presentable(r: Record, mode: Mode) {
    || (r.tier == "captured_judgment" && r.status == "captured")
    || (r.tier == "ratified_knowledge" && r.status == "ratified")
    || (r.tier == "imported_floor" && r.importedSelected && r.status in {"captured", "extracted", "ratified"})
    || (mode.Analytical? && r.tier == "inferred_candidate" && r.status in {"captured", "extracted", "ratified", "inferred"})
    || (mode.Analytical? && r.tier == "observed_candidate" && r.status == "extracted")
  }

  /** Every record of an answer is current, neither rejected, tombstoned nor closed, has its
      provenance and evidence, an admitted pair of tier and status, its cases if it was
      captured outside the declared business partition, and stays within its domain; and
      every such candidate of the asked partitions competes. */
  lemma AnswersHoldOnly(q: Query, candidates: seq<Record>, total: nat, r: Record)
    ensures r in AnswerFor(q, Ranked(q, candidates), total).selected ==> r in Ranked(q, candidates)
    ensures r in Ranked(q, candidates) <==>
      && r in candidates && (q.partitions == [] || r.partition in q.partitions)
      && r.current && !r.rejected && !r.tombstoned && !r.closed && r.provenanceComplete && r.hasEvidence
      && Presentable(r, q.mode)
      && (r.status == "captured" ==> r.hasCases || r.partition == "business_declared")
      && (r.partition == "self_model" && q.mode == Authoritative ==> r.ontologyType == "SelfModelAssertion" && r.status == "ratified")
      && (if r.section == Domain then q.domain.Some? && r.domain == q.domain else r.domain == None)
  {
    RankedHolds(q, candidates, r);
    EligibleExactly(q, r);
    AnswerIsEligibleAndWithinBudget(q, candidates, total);
    hide Eligible, Presentable, Ranked, AnswerFor;
  }

  lemma EligibleExactly(q: Query, r: Record)
    ensures Eligible(r, q.domain, q.mode) <==>
      && r.current && !r.rejected && !r.tombstoned && !r.closed && r.provenanceComplete && r.hasEvidence
      && Presentable(r, q.mode)
      && (r.status == "captured" ==> r.hasCases || r.partition == "business_declared")
      && (r.partition == "self_model" && q.mode == Authoritative ==> r.ontologyType == "SelfModelAssertion" && r.status == "ratified")
      && (if r.section == Domain then q.domain.Some? && r.domain == q.domain else r.domain == None)
  {
  }

  // ---------- what an answer says of itself ----------

  /** The payload is the selected records' renderings in order, section after section, and the counts add up. */
  lemma AnswerCounts(q: Query, candidates: seq<Record>, total: nat)
    ensures var a := AnswerFor(q, Ranked(q, candidates), total);
      && a.payload == Payload(a.selected, q.render)
      && a.eligibleCount == |Ranked(q, candidates)| && a.omittedCount + |a.selected| == a.eligibleCount && a.omittedCount >= 0
      && forall i, j | 0 <= i < j < |a.selected| :: SectionIndex(a.selected[i].section) <= SectionIndex(a.selected[j].section)
  {
    var ranked := Ranked(q, candidates);
    hide Ranked;
    SelectionParts(q, ranked, total);
    SectionCounts(ranked);
    forall k: nat | k < 3
      ensures |Chosen(q, ranked, total, k)| <= |InSection(ranked, SECTIONS[k])|
      ensures forall i | 0 <= i < |Chosen(q, ranked, total, k)| :: SectionIndex(Chosen(q, ranked, total, k)[i].section) == k
    {
      ChosenOfSection(q, ranked, total, k);
    }
    hide Chosen, InSection;
    assert SECTIONS[0] == Core && SECTIONS[1] == General && SECTIONS[2] == Domain;
  }

  lemma ChosenOfSection(q: Query, ranked: seq<Record>, total: nat, k: nat)
    requires k < 3
    ensures |Chosen(q, ranked, total, k)| <= |InSection(ranked, SECTIONS[k])|
    ensures forall i | 0 <= i < |Chosen(q, ranked, total, k)| :: SectionIndex(Chosen(q, ranked, total, k)[i].section) == k
  {
    var records := InSection(ranked, SECTIONS[k]);
    PackIsShorter(records, Room(q, ranked, total, k), q.render);
    var chosen := Chosen(q, ranked, total, k);
    forall i | 0 <= i < |chosen|
      ensures SectionIndex(chosen[i].section) == k
    {
      PackFromRecords(records, Room(q, ranked, total, k), q.render, chosen[i]);
      FilterMembers(ranked, (x: Record) => x.section == SECTIONS[k], chosen[i]);
    }
  }

  lemma {:induction false} PackIsShorter(records: seq<Record>, room: nat, render: Record -> Text)
    ensures |Pack(records, room, render)| <= |records|
  {
    if records != [] {
      PackIsShorter(records[1..], if |render(records[0])| <= room then room - |render(records[0])| else room, render);
    }
  }

  lemma {:induction false} SectionCounts(ranked: seq<Record>)
    ensures |InSection(ranked, Core)| + |InSection(ranked, General)| + |InSection(ranked, Domain)| == |ranked|
  {
    if ranked != [] {
      SectionCounts(ranked[1..]);
    }
  }

  /** A budget is admitted up to 32 KiB, and up to 128 KiB where a higher one has been allowed. */
  lemma BudgetExactly(budget: int, allowHigher: bool)
    ensures BudgetOk(budget, allowHigher) <==> 1 <= budget <= 32768 || (allowHigher && 32768 < budget <= 131072)
  {
  }
}
