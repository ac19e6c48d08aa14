/** The spool over every run of its steps, with a crash allowed between any two. */
module SpoolRuns {
  import opened Outcomes
  import opened Sorting
  import opened Spool

  // ---------- the canonical store ----------

  /** The envelope is in the canonical store, byte for byte. */
  predicate InCanon(c: Canon, e: Envelope) { e.id in c.events && c.events[e.id] == e }

  /** The envelope is in the store, or its wording was first captured from another event. */
  predicate Represented(c: Canon, e: Envelope) {
    InCanon(c, e) || (ContentKey(e) in c.firsts && c.firsts[ContentKey(e)] != e.id)
  }

  /** One event row for each captured event. */
  ghost predicate OrderOk(c: Canon) {
    Distinct(c.order) && forall id :: id in c.order <==> id in c.events
  }

  /** Each captured event has its `consumed_inputs` row and is the first of its wording. */
  predicate EventsOk(c: Canon) {
    && c.consumed.Keys == c.events.Keys
    && forall id | id in c.events :: c.events[id].id == id && c.consumed[id] == EnvelopeSha(c.events[id])
         && ContentKey(c.events[id]) in c.firsts && c.firsts[ContentKey(c.events[id])] == id
  }

  predicate FirstsOk(c: Canon) {
    forall k | k in c.firsts :: c.firsts[k] in c.events && ContentKey(c.events[c.firsts[k]]) == k
  }

  ghost predicate CanonOk(c: Canon) { OrderOk(c) && EventsOk(c) && FirstsOk(c) }

  /** The store only gains rows. */
  predicate Gains(a: Canon, b: Canon) {
    && a.order <= b.order && a.otherEvents == b.otherEvents && a.nodes <= b.nodes
    && (forall id | id in a.events :: id in b.events && b.events[id] == a.events[id])
    && (forall id | id in a.consumed :: id in b.consumed && b.consumed[id] == a.consumed[id])
    && (forall k | k in a.firsts :: k in b.firsts && b.firsts[k] == a.firsts[k])
  }

  /** One application keeps the store consistent, answers other than by refusal only
      when the envelope is then represented, and keeps it verbatim unless another
      event had captured its wording before. */
  lemma ApplyFacts(x: Config, c: Canon, e: Envelope)
    requires CanonOk(c)
    ensures var r := Apply(x, c, e);
      && CanonOk(r.0) && Gains(c, r.0)
      && (r.1 != Refused ==> Represented(r.0, e))
      && (r.1 != Refused ==> (InCanon(r.0, e) <==> (ContentKey(e) in c.firsts ==> c.firsts[ContentKey(e)] == e.id)))
  {
    hide Gains, OrderOk;
    var r := Apply(x, c, e);
    if r.1 == Captured {
      CaptureKeepsOrder(x, c, e);
      CaptureKeepsFirsts(x, c, e);
      CaptureKeepsEvents(x, c, e);
      CaptureGains(x, c, e);
    } else {
      GainsItself(c);
      assert r.1 != Refused ==> Represented(c, e);
    }
  }

  lemma CaptureGains(x: Config, c: Canon, e: Envelope)
    requires CanonOk(c) && Apply(x, c, e).1 == Captured
    ensures Gains(c, Apply(x, c, e).0) && InCanon(Apply(x, c, e).0, e) && ContentKey(e) !in c.firsts
  {
    assert c.order == (c.order + [e.id])[..|c.order|];
  }

  lemma CaptureKeepsEvents(x: Config, c: Canon, e: Envelope)
    requires EventsOk(c) && FirstsOk(c) && Apply(x, c, e).1 == Captured
    ensures EventsOk(Apply(x, c, e).0)
  {
  }

  lemma CaptureKeepsOrder(x: Config, c: Canon, e: Envelope)
    requires OrderOk(c) && Apply(x, c, e).1 == Captured
    ensures OrderOk(Apply(x, c, e).0)
  {
    var r := Apply(x, c, e).0;
    forall id
      ensures id in r.order <==> id in r.events
    {
      assert id in r.order <==> id in c.order || id == e.id;
    }
  }

  lemma CaptureKeepsFirsts(x: Config, c: Canon, e: Envelope)
    requires FirstsOk(c) && Apply(x, c, e).1 == Captured
    ensures FirstsOk(Apply(x, c, e).0)
  {
  }

  /** Exactly when a represented envelope is kept verbatim. */
  lemma KeptVerbatim(c: Canon, e: Envelope)
    requires CanonOk(c) && Represented(c, e)
    ensures InCanon(c, e) <==> c.firsts[ContentKey(e)] == e.id
  {
  }

  lemma GainsComposes(a: Canon, b: Canon, c: Canon)
    requires Gains(a, b) && Gains(b, c)
    ensures Gains(a, c)
  {
  }

  lemma RepresentedStays(a: Canon, b: Canon, e: Envelope)
    requires Gains(a, b) && Represented(a, e)
    ensures Represented(b, e)
  {
  }

  lemma {:induction false} ApplyAllFacts(x: Config, c: Canon, es: seq<Envelope>)
    requires CanonOk(c)
    ensures var r := ApplyAll(x, c, es);
      && CanonOk(r.0) && Gains(c, r.0) && |r.1| == |es|
      && forall i | 0 <= i < |es| && r.1[i] != Refused :: Represented(r.0, es[i])
  {
    hide CanonOk, Gains, Apply, Represented;
    if es == [] {
      GainsItself(c);
    } else {
      var n := |es| - 1;
      ApplyAllFacts(x, c, es[..n]);
      var before := ApplyAll(x, c, es[..n]);
      var last := Apply(x, before.0, es[n]);
      ApplyFacts(x, before.0, es[n]);
      GainsComposes(c, before.0, last.0);
      forall i | 0 <= i < |es| && ApplyAll(x, c, es).1[i] != Refused
        ensures Represented(last.0, es[i])
      {
        if i < n {
          assert es[..n][i] == es[i];
          RepresentedStays(before.0, last.0, es[i]);
        }
      }
    }
  }

  lemma GainsItself(c: Canon)
    ensures Gains(c, c)
  {
  }

  // ---------- replay ----------

  /** Applying again changes nothing; once true it stays true. */
  lemma SettledStays(x: Config, c: Canon, e: Envelope, f: Envelope)
    requires Apply(x, c, e).0 == c
    ensures Apply(x, Apply(x, c, f).0, e).0 == Apply(x, c, f).0
  {
  }

  lemma ApplySettles(x: Config, c: Canon, e: Envelope)
    ensures Apply(x, Apply(x, c, e).0, e).0 == Apply(x, c, e).0
  {
  }

  lemma {:induction false} BatchSettles(x: Config, c: Canon, es: seq<Envelope>, i: nat)
    requires i < |es|
    ensures Apply(x, ApplyAll(x, c, es).0, es[i]).0 == ApplyAll(x, c, es).0
  {
    hide Apply;
    var n := |es| - 1;
    var before := ApplyAll(x, c, es[..n]).0;
    if i == n {
      ApplySettles(x, before, es[n]);
    } else {
      BatchSettles(x, c, es[..n], i);
      SettledStays(x, before, es[i], es[n]);
    }
  }

  lemma {:induction false} SettledBatchIsNoop(x: Config, c: Canon, es: seq<Envelope>)
    requires forall i | 0 <= i < |es| :: Apply(x, c, es[i]).0 == c
    ensures ApplyAll(x, c, es).0 == c
  {
    if es != [] {
      SettledBatchIsNoop(x, c, es[..|es| - 1]);
    }
  }

  lemma {:induction false} ApplyAllConcat(x: Config, c: Canon, a: seq<Envelope>, b: seq<Envelope>)
    ensures ApplyAll(x, c, a + b) == (ApplyAll(x, ApplyAll(x, c, a).0, b).0, ApplyAll(x, c, a).1 + ApplyAll(x, ApplyAll(x, c, a).0, b).1)
  {
    hide Apply;
    if b == [] {
      assert a + b == a && ApplyAll(x, ApplyAll(x, c, a).0, b) == (ApplyAll(x, c, a).0, []);
      assert ApplyAll(x, c, a).1 + [] == ApplyAll(x, c, a).1;
    } else {
      var n := |b| - 1;
      assert (a + b)[..|a + b| - 1] == a + b[..n] && (a + b)[|a + b| - 1] == b[n];
      ApplyAllConcat(x, c, a, b[..n]);
      var left, mid := ApplyAll(x, c, a), ApplyAll(x, ApplyAll(x, c, a).0, b[..n]);
      var last := Apply(x, mid.0, b[n]);
      assert ApplyAll(x, c, a + b) == (last.0, left.1 + mid.1 + [last.1]);
      assert left.1 + mid.1 + [last.1] == left.1 + (mid.1 + [last.1]);
    }
  }

  /** A batch interrupted after any number of durable applications and run again
      from the start ends in the same store as one uninterrupted run. */
  lemma ResumeEqualsUninterrupted(x: Config, c: Canon, es: seq<Envelope>, k: nat)
    requires k <= |es|
    ensures ApplyAll(x, ApplyAll(x, c, es[..k]).0, es).0 == ApplyAll(x, c, es).0
  {
    hide Apply;
    var mid := ApplyAll(x, c, es[..k]).0;
    assert es == es[..k] + es[k..];
    ApplyAllConcat(x, mid, es[..k], es[k..]);
    ApplyAllConcat(x, c, es[..k], es[k..]);
    forall i | 0 <= i < k
      ensures Apply(x, mid, es[..k][i]).0 == mid
    {
      BatchSettles(x, c, es[..k], i);
    }
    SettledBatchIsNoop(x, mid, es[..k]);
  }

  // ---------- no conflict, no refusal ----------

  /** An admissible envelope with free identities, on its own and among the others. */
  ghost predicate ConflictFree(x: Config, c: Canon, all: seq<Envelope>, e: Envelope) {
    && x.Admits(e) && e.id !in c.otherEvents && Distinct(e.subjects)
    && (e.id in c.events ==> c.events[e.id] == e)
    && (e.id in c.events || forall s | s in e.subjects :: s !in c.nodes)
    && (forall f | f in all && f.id == e.id :: f == e)
    && (forall f, s | f in all && f != e && s in f.subjects :: s !in e.subjects)
  }

  lemma ConflictFreeStays(x: Config, c: Canon, all: seq<Envelope>, e: Envelope, f: Envelope)
    requires CanonOk(c) && ConflictFree(x, c, all, e) && f in all
    ensures ConflictFree(x, Apply(x, c, f).0, all, e)
    ensures Apply(x, c, e).1 != Refused
  {
  }

  /** Every conflict-free envelope of a batch is answered captured or duplicate. */
  lemma {:induction false} ConflictFreeIsApplied(x: Config, c: Canon, all: seq<Envelope>, n: nat, e: Envelope)
    requires CanonOk(c) && n <= |all| && ConflictFree(x, c, all, e)
    ensures var r := ApplyAll(x, c, all[..n]);
      && CanonOk(r.0) && ConflictFree(x, r.0, all, e) && |r.1| == n
      && forall i | 0 <= i < n && all[i] == e :: r.1[i] != Refused
  {
    hide CanonOk, ConflictFree, Apply;
    ApplyAllFacts(x, c, all[..n]);
    if n > 0 {
      ConflictFreeIsApplied(x, c, all, n - 1, e);
      assert all[..n][..n - 1] == all[..n - 1];
      ConflictFreeStays(x, ApplyAll(x, c, all[..n - 1]).0, all, e, all[n - 1]);
    }
  }

  // ---------- runs ----------

  /** Where the one compiler is; after a crash it is idle again. */
  datatype Phase =
    | Idle
    | Applying(items: seq<Item>, outcomes: seq<Outcome>)
    | Acking(items: seq<Item>, outcomes: seq<Outcome>, done: nat)

  /** `halfPruned` are acknowledgements whose source a prune has just deleted;
      `written` is every file that was ever put in the spool. */
  datatype System = System(state: State, phase: Phase, halfPruned: set<Path>, written: set<(Path, File)>)

  datatype Step =
    | Write(envelope: Envelope)
    | Deliver(path: Path, file: File)
    | Direct(envelope: Envelope)
    | Scan(listing: seq<Path>)
    | CommitGroup(count: nat)
    | AckNext(now: int)
    | PruneSource(key: Path, now: int, days: int)
    | PruneAck(key: Path)
    | Crash

  /** Create-new publication, noting the file it leaves. */
  function WriteNew(s: System, e: Envelope): System {
    var spool := Written(s.state.spool, e);
    if spool.Rejected? then s
    else s.(state := s.state.(spool := spool.value), written := s.written + {(Home(e), Readable(e, 0))})
  }

  /** A file placed at a free path by something else. */
  function Put(s: System, path: Path, file: File): System {
    if path in s.state.spool then s
    else s.(state := s.state.(spool := s.state.spool[path := file]), written := s.written + {(path, file)})
  }

  /** One step; a step that is not enabled changes nothing. */
  function Next(x: Config, s: System, step: Step): System {
    match step
    case Write(e) => WriteNew(s, e)
    case Deliver(path, file) => Put(s, path, file)
    case Direct(e) => s.(state := s.state.(canon := Apply(x, s.state.canon, e).0))
    case Scan(listing) =>
      if s.phase != Idle then s
      else s.(state := s.state.(receipts := s.state.receipts + Unreadable(s.state, listing)), phase := Applying(Sorted(s.state, listing), []))
    case CommitGroup(count) =>
      if !s.phase.Applying? then s
      else
        var done := |s.phase.outcomes|;
        if done >= |s.phase.items| then s.(phase := Acking(s.phase.items, s.phase.outcomes, 0))
        else
          var end := if |s.phase.items| - done < count then |s.phase.items| else done + count;
          var group := ApplyAll(x, s.state.canon, Envelopes(s.phase.items[done..end]));
          s.(state := s.state.(canon := group.0), phase := Applying(s.phase.items, s.phase.outcomes + group.1))
    case AckNext(now) =>
      if !s.phase.Acking? then s
      else if s.phase.done >= |s.phase.items| || s.phase.done >= |s.phase.outcomes| then s.(phase := Idle)
      else
        var item, outcome := s.phase.items[s.phase.done], s.phase.outcomes[s.phase.done];
        if outcome == Refused then
          s.(state := s.state.(receipts := s.state.receipts + {item.path}), phase := s.phase.(done := s.phase.done + 1))
        else
          var acked := Acknowledged(s.state, item, now);
          if acked.Rejected? then s.(phase := Idle) else s.(state := acked.value, phase := s.phase.(done := s.phase.done + 1))
    case PruneSource(key, now, days) =>
      if days < 1 || !Prunable(s.state, key, now, days) then s
      else s.(state := s.state.(spool := s.state.spool - {key}), halfPruned := s.halfPruned + {key})
    case PruneAck(key) =>
      if key !in s.halfPruned && !Leftover(s.state, key) then s
      else s.(state := s.state.(acks := s.state.acks - {key}), halfPruned := s.halfPruned - {key})
    case Crash => s.(phase := Idle, halfPruned := {})
  }

  function Run(x: Config, s: System, steps: seq<Step>): System {
    if steps == [] then s else Next(x, Run(x, s, steps[..|steps| - 1]), steps[|steps| - 1])
  }

  const Start: System := System(State(map[], map[], Canon([], map[], map[], map[], {}, {}), {}), Idle, {}, {})

  ghost predicate AcksSound(canon: Canon, acks: map<Path, Ack>) {
    forall k | k in acks :: k == Path(acks[k].node, acks[k].id) && Represented(canon, acks[k].payload.envelope)
      && k == Home(acks[k].payload.envelope)
  }

  /** Every file ever written is still there, or its envelope is represented. */
  ghost predicate NothingLost(canon: Canon, spool: map<Path, File>, written: set<(Path, File)>) {
    forall w | w in written :: (w.0 in spool && spool[w.0] == w.1) || (w.1.Readable? && Represented(canon, w.1.envelope))
  }

  ghost predicate AnswersSound(canon: Canon, phase: Phase) {
    !phase.Idle? ==>
      && |phase.outcomes| <= |phase.items|
      && forall i | 0 <= i < |phase.outcomes| && phase.outcomes[i] != Refused :: Represented(canon, phase.items[i].envelope)
  }

  /** The store is consistent, every acknowledgement is sound, nothing is lost. */
  ghost predicate StateSafe(s: State, written: set<(Path, File)>) {
    CanonOk(s.canon) && AcksSound(s.canon, s.acks) && NothingLost(s.canon, s.spool, written)
  }

  ghost predicate Safe(s: System) {
    StateSafe(s.state, s.written) && AnswersSound(s.state.canon, s.phase)
  }

  lemma GainsKeepsSafe(s: System, t: System)
    requires Safe(s) && t == s.(state := s.state.(canon := t.state.canon)) && CanonOk(t.state.canon) && Gains(s.state.canon, t.state.canon)
    ensures Safe(t)
  {
    hide CanonOk;
    var a, b := s.state.canon, t.state.canon;
    forall e | Represented(a, e)
      ensures Represented(b, e)
    {
      RepresentedStays(a, b, e);
    }
    hide Gains, Represented;
    forall k | k in t.state.acks
      ensures Represented(b, t.state.acks[k].payload.envelope)
    {
      assert Represented(a, s.state.acks[k].payload.envelope);
    }
    if !t.phase.Idle? {
      forall i | 0 <= i < |t.phase.outcomes| && t.phase.outcomes[i] != Refused
        ensures Represented(b, t.phase.items[i].envelope)
      {
        assert Represented(a, s.phase.items[i].envelope);
      }
    }
  }

  lemma CommitKeepsSafe(x: Config, s: System, count: nat)
    requires Safe(s)
    ensures Safe(Next(x, s, CommitGroup(count)))
  {
    hide CanonOk, Gains, Represented, AcksSound, NothingLost;
    var t := Next(x, s, CommitGroup(count));
    if s.phase.Applying? && |s.phase.outcomes| < |s.phase.items| {
      var items, done := s.phase.items, |s.phase.outcomes|;
      var end := if |items| - done < count then |items| else done + count;
      ApplyAllFacts(x, s.state.canon, Envelopes(items[done..end]));
      var mid := s.(state := s.state.(canon := t.state.canon));
      GainsKeepsSafe(s, mid);
      forall i | 0 <= i < |t.phase.outcomes| && t.phase.outcomes[i] != Refused
        ensures Represented(t.state.canon, items[i].envelope)
      {
        if i >= done {
          assert Envelopes(items[done..end])[i - done] == items[i].envelope;
        } else {
          assert mid.phase.outcomes[i] != Refused;
        }
      }
    }
  }

  lemma AckKeepsSafe(x: Config, s: System, now: int)
    requires Safe(s)
    ensures Safe(Next(x, s, AckNext(now)))
  {
    hide CanonOk, Represented;
  }

  lemma StepKeepsSafe(x: Config, s: System, step: Step)
    requires Safe(s)
    ensures Safe(Next(x, s, step))
  {
    match step
    case Direct(e) =>
      ApplyFacts(x, s.state.canon, e);
      GainsKeepsSafe(s, Next(x, s, step));
    case CommitGroup(count) => CommitKeepsSafe(x, s, count);
    case AckNext(now) => AckKeepsSafe(x, s, now);
    case Write(_) =>
      hide CanonOk, Represented;
    case Deliver(_, _) =>
      hide CanonOk, Represented;
    case Scan(_) =>
      hide CanonOk, Represented;
    case PruneSource(_, _, _) =>
      hide CanonOk, Represented;
    case PruneAck(_) =>
      hide CanonOk, Represented;
    case Crash =>
      hide CanonOk, Represented;
  }

  /** No loss: after any run, with crashes anywhere, every file ever written is in
      the spool or its envelope is represented in the store; every acknowledgement
      is for a represented envelope; every captured event has exactly one row. */
  lemma {:induction false} NoLoss(x: Config, steps: seq<Step>)
    ensures Safe(Run(x, Start, steps))
  {
    hide Safe, Next;
    if steps == [] {
      StartIsSafe();
    } else {
      NoLoss(x, steps[..|steps| - 1]);
      StepKeepsSafe(x, Run(x, Start, steps[..|steps| - 1]), steps[|steps| - 1]);
    }
  }

  lemma StartIsSafe()
    ensures Safe(Start)
  {
  }

  /** After any run, a written envelope that has left the spool is in the store byte
      for byte if and only if no other event captured its wording first. */
  lemma LostExactlyWhenSecond(x: Config, steps: seq<Step>, path: Path, e: Envelope, spelling: nat)
    requires var s := Run(x, Start, steps); (path, Readable(e, spelling)) in s.written && path !in s.state.spool
    ensures var c := Run(x, Start, steps).state.canon;
      && ContentKey(e) in c.firsts
      && (InCanon(c, e) <==> c.firsts[ContentKey(e)] == e.id)
  {
    NoLoss(x, steps);
    KeptVerbatim(Run(x, Start, steps).state.canon, e);
  }

  /** Two events with the same wording: the second is acknowledged as a duplicate,
      pruned, and in neither place. */
  lemma SecondCopyIsLost(x: Config, a: Envelope, b: Envelope)
    requires x.Admits(a) && x.Admits(b) && a.id != b.id && ContentKey(a) == ContentKey(b) && Distinct(a.subjects)
    ensures var steps := [Direct(a), Write(b), Scan([Home(b)]), CommitGroup(1), CommitGroup(1), AckNext(0), PruneSource(Home(b), DAY, 1), PruneAck(Home(b))];
      var s := Run(x, Start, steps);
      && (Home(b), Readable(b, 0)) in s.written && s.state.spool == map[] && s.state.acks == map[] && !InCanon(s.state.canon, b)
  {
    var steps := [Direct(a), Write(b), Scan([Home(b)]), CommitGroup(1), CommitGroup(1), AckNext(0), PruneSource(Home(b), DAY, 1), PruneAck(Home(b))];
    SecondIsDuplicate(x, a, b);
    hide Run, Apply, InCanon;
    SecondIsScanned(x, a, b);
    SecondIsApplied(x, a, b);
    SecondIsPruned(x, a, b);
    hide Next;
    RunEight(x, steps);
  }

  /** The state with only the second copy in the spool, after the first was captured. */
  function WithSecond(x: Config, a: Envelope, b: Envelope, phase: Phase): System {
    System(State(map[Home(b) := Readable(b, 0)], map[], Apply(x, Start.state.canon, a).0, {}), phase, {}, {(Home(b), Readable(b, 0))})
  }

  lemma SecondIsScanned(x: Config, a: Envelope, b: Envelope)
    ensures Next(x, Next(x, Next(x, Start, Direct(a)), Write(b)), Scan([Home(b)])) == WithSecond(x, a, b, Applying([Item(Home(b), b)], []))
  {
    hide Apply;
    var s2 := WithSecond(x, a, b, Idle);
    var item := Item(Home(b), b);
    assert Next(x, Next(x, Start, Direct(a)), Write(b)) == s2;
    assert Inputs(s2.state, [Home(b)]) == [item] by {
      assert [Home(b)][..0] == [];
      assert Inputs(s2.state, []) == [];
    }
    assert Sort([item], ItemKey) == [item] by {
      assert [item][1..] == [];
      assert Sort([], ItemKey) == [];
    }
  }

  lemma SecondIsApplied(x: Config, a: Envelope, b: Envelope)
    requires ApplyAll(x, Apply(x, Start.state.canon, a).0, [b]) == (Apply(x, Start.state.canon, a).0, [Duplicate])
    ensures Next(x, Next(x, WithSecond(x, a, b, Applying([Item(Home(b), b)], [])), CommitGroup(1)), CommitGroup(1))
         == WithSecond(x, a, b, Acking([Item(Home(b), b)], [Duplicate], 0))
  {
    hide Apply, ApplyAll;
    assert Envelopes([Item(Home(b), b)][0..1]) == [b];
    assert [] + [Duplicate] == [Duplicate];
  }

  lemma SecondIsPruned(x: Config, a: Envelope, b: Envelope)
    ensures var s := Next(x, Next(x, Next(x, WithSecond(x, a, b, Acking([Item(Home(b), b)], [Duplicate], 0)),
        AckNext(0)), PruneSource(Home(b), DAY, 1)), PruneAck(Home(b)));
      && (Home(b), Readable(b, 0)) in s.written && s.state.spool == map[] && s.state.acks == map[]
      && s.state.canon == Apply(x, Start.state.canon, a).0
  {
    hide Apply;
  }

  lemma RunEight(x: Config, steps: seq<Step>)
    requires |steps| == 8
    ensures Run(x, Start, steps) == Next(x, Next(x, Next(x, Next(x, Next(x, Next(x, Next(x, Next(x, Start,
      steps[0]), steps[1]), steps[2]), steps[3]), steps[4]), steps[5]), steps[6]), steps[7])
  {
    hide Next, Run;
    assert Run(x, Start, steps[..0]) == Start by { RunUnfolds(x, steps, 0); }
    RunUnfolds(x, steps, 1);
    RunUnfolds(x, steps, 2);
    RunUnfolds(x, steps, 3);
    RunUnfolds(x, steps, 4);
    RunUnfolds(x, steps, 5);
    RunUnfolds(x, steps, 6);
    RunUnfolds(x, steps, 7);
    RunUnfolds(x, steps, 8);
    assert steps[..8] == steps;
  }

  lemma RunUnfolds(x: Config, steps: seq<Step>, k: nat)
    requires k <= |steps|
    ensures Run(x, Start, steps[..k]) == if k == 0 then Start else Next(x, Run(x, Start, steps[..k - 1]), steps[k - 1])
  {
    if k > 0 {
      assert steps[..k][..k - 1] == steps[..k - 1];
    }
  }

  lemma SecondIsDuplicate(x: Config, a: Envelope, b: Envelope)
    requires x.Admits(a) && x.Admits(b) && a.id != b.id && ContentKey(a) == ContentKey(b) && Distinct(a.subjects)
    ensures var c := Apply(x, Start.state.canon, a).0;
      ApplyAll(x, c, [b]) == (c, [Duplicate]) && !InCanon(c, b)
  {
    var c := Apply(x, Start.state.canon, a).0;
    assert Apply(x, Start.state.canon, a).1 == Captured;
    assert Apply(x, c, b) == (c, Duplicate);
    assert !InCanon(c, b);
    assert [b][..0] == [];
    assert ApplyAll(x, c, []) == (c, []);
    hide Apply;
    assert ApplyAll(x, c, [b]).0 == c;
    assert ApplyAll(x, c, [b]).1 == [] + [Duplicate] == [Duplicate];
  }

  // ---------- a crash-free compile ----------

  lemma {:induction false} AckingKeepsCanon(s: State, items: seq<Item>, outcomes: seq<Outcome>, now: int)
    requires |outcomes| == |items|
    ensures AckFrom(s, items, outcomes, now).0.canon == s.canon && AckFrom(s, items, outcomes, now).0.spool == s.spool
    decreases |items|
  {
    if items != [] {
      if outcomes[0].Refused? {
        AckingKeepsCanon(s.(receipts := s.receipts + {items[0].path}), items[1..], outcomes[1..], now);
      } else if Acknowledged(s, items[0], now).Ok? {
        AckingKeepsCanon(Acknowledged(s, items[0], now).value, items[1..], outcomes[1..], now);
      }
    }
  }

  lemma {:induction false} InputsHold(s: State, listing: seq<Path>, p: Path)
    requires p in listing && p in s.spool && s.spool[p].Readable? && !AckCommitted(s, p, s.spool[p].envelope)
    ensures Item(p, s.spool[p].envelope) in Inputs(s, listing)
  {
    var n := |listing| - 1;
    if listing[n] != p {
      assert listing == listing[..n] + [listing[n]];
      InputsHold(s, listing[..n], p);
    }
  }

  /** Whatever state a run has left, one compile over a full listing, even one that
      an acknowledgement conflict then stops, represents every readable envelope in
      the spool that conflicts with nothing. */
  lemma CompileAppliesEverything(x: Config, steps: seq<Step>, listing: seq<Path>, now: int, days: int, batchSize: int, p: Path)
    requires 1 <= batchSize <= 1000
    requires var s := Run(x, Start, steps).state;
      && Lists(listing, s.spool.Keys) && p in s.spool && s.spool[p].Readable?
      && ConflictFree(x, s.canon, Envelopes(Sorted(s, listing)), s.spool[p].envelope)
    ensures var s := Run(x, Start, steps).state; var after := Compiled(x, s, listing, now, days, batchSize).0;
      CanonOk(after.canon) && Gains(s.canon, after.canon) && Represented(after.canon, s.spool[p].envelope)
  {
    hide CanonOk, Gains, ConflictFree, Apply, ApplyAll, Run, AnswersSound, NothingLost, Represented, AckFrom, Sort, Inputs, Unreadable;
    NoLoss(x, steps);
    var s := Run(x, Start, steps).state;
    var e := s.spool[p].envelope;
    var items := Sorted(s, listing);
    ApplyAllFacts(x, s.canon, Envelopes(items));
    var applied := AfterApply(x, s, listing);
    AckingKeepsCanon(applied.0, items, applied.1, now);
    if AckCommitted(s, p, e) {
      assert Represented(s.canon, s.acks[Home(e)].payload.envelope);
      RepresentedStays(s.canon, applied.0.canon, e);
    } else {
      var i := InputIsListed(s, listing, p);
      ConflictFreeIsApplied(x, s.canon, Envelopes(items), |items|, e);
      assert Envelopes(items)[..|items|] == Envelopes(items);
    }
  }

  lemma InputIsListed(s: State, listing: seq<Path>, p: Path) returns (i: nat)
    requires p in listing && p in s.spool && s.spool[p].Readable? && !AckCommitted(s, p, s.spool[p].envelope)
    ensures i < |Sorted(s, listing)| && Envelopes(Sorted(s, listing))[i] == s.spool[p].envelope
  {
    var item := Item(p, s.spool[p].envelope);
    InputsHold(s, listing, p);
    SortIsSorted(Inputs(s, listing), ItemKey);
    assert item in multiset(Inputs(s, listing));
    assert item in multiset(Sorted(s, listing));
    i :| i < |Sorted(s, listing)| && Sorted(s, listing)[i] == item;
  }

  lemma {:induction false} AckingKeepsSound(s: State, items: seq<Item>, outcomes: seq<Outcome>, now: int)
    requires |outcomes| == |items| && AcksSound(s.canon, s.acks)
    requires forall i | 0 <= i < |items| && outcomes[i] != Refused :: Represented(s.canon, items[i].envelope)
    ensures AcksSound(s.canon, AckFrom(s, items, outcomes, now).0.acks)
    decreases |items|
  {
    hide Represented;
    if items != [] {
      if outcomes[0].Refused? {
        AckingKeepsSound(s.(receipts := s.receipts + {items[0].path}), items[1..], outcomes[1..], now);
      } else if Acknowledged(s, items[0], now).Ok? {
        AckingKeepsSound(Acknowledged(s, items[0], now).value, items[1..], outcomes[1..], now);
      }
    }
  }

  /** Pruning deletes nothing but represented envelopes. */
  lemma PruningKeepsSafe(s: State, nodes: set<string>, now: int, days: int, written: set<(Path, File)>)
    requires AcksSound(s.canon, s.acks) && NothingLost(s.canon, s.spool, written)
    ensures var t := Pruned(s, nodes, now, days);
      AcksSound(t.canon, t.acks) && NothingLost(t.canon, t.spool, written)
  {
    hide Represented;
    var t := Pruned(s, nodes, now, days);
    forall w | w in written
      ensures (w.0 in t.spool && t.spool[w.0] == w.1) || (w.1.Readable? && Represented(t.canon, w.1.envelope))
    {
      if w.0 in s.spool && w.0 !in t.spool {
        assert Prunable(s, w.0, now, days);
        assert Represented(s.canon, s.acks[w.0].payload.envelope);
      }
    }
  }

  lemma ApplyingKeepsSafe(x: Config, s: State, listing: seq<Path>, written: set<(Path, File)>)
    requires StateSafe(s, written)
    ensures var applied := AfterApply(x, s, listing); var items := Sorted(s, listing);
      && StateSafe(applied.0, written) && |applied.1| == |items|
      && forall i | 0 <= i < |items| && applied.1[i] != Refused :: Represented(applied.0.canon, items[i].envelope)
  {
    hide CanonOk, Gains, Represented, ApplyAll, Sort, Inputs, Unreadable;
    var items := Sorted(s, listing);
    ApplyAllFacts(x, s.canon, Envelopes(items));
    var applied := AfterApply(x, s, listing);
    GainsKeepsSafe(System(s, Idle, {}, written), System(s.(canon := applied.0.canon), Idle, {}, written));
    assert forall i | 0 <= i < |items| && applied.1[i] != Refused :: Envelopes(items)[i] == items[i].envelope;
  }

  lemma AckingKeepsSafe(x: Config, s: State, listing: seq<Path>, now: int, written: set<(Path, File)>)
    requires StateSafe(s, written)
    ensures StateSafe(AfterAcks(x, s, listing, now).0, written)
  {
    hide CanonOk, Represented, AcksSound, NothingLost, AckFrom, AfterApply, Sorted;
    ApplyingKeepsSafe(x, s, listing, written);
    var applied := AfterApply(x, s, listing);
    AckingKeepsCanon(applied.0, Sorted(s, listing), applied.1, now);
    AckingKeepsSound(applied.0, Sorted(s, listing), applied.1, now);
  }

  /** A whole compile, finished or stopped by an exception, keeps what runs keep. */
  lemma CompileKeepsSafe(x: Config, s: State, listing: seq<Path>, now: int, days: int, batchSize: int, written: set<(Path, File)>)
    requires StateSafe(s, written)
    ensures StateSafe(Compiled(x, s, listing, now, days, batchSize).0, written)
  {
    hide CanonOk, AcksSound, NothingLost, AfterAcks, Pruned, Producers, Unreadable;
    AckingKeepsSafe(x, s, listing, now, written);
    var acked := AfterAcks(x, s, listing, now).0;
    PruningKeepsSafe(acked, Producers(s, listing), now, days, written);
    PrunedCanon(acked, Producers(s, listing), now, days);
  }

  lemma PrunedCanon(s: State, nodes: set<string>, now: int, days: int)
    ensures Pruned(s, nodes, now, days).canon == s.canon
  {
  }

  // ---------- retention ----------

  /** A file leaves the spool in a step if and only if the step prunes its path after its
      acknowledgement, for exactly that file, has been there for the retention. */
  lemma StepTakesExactly(x: Config, s: System, step: Step, path: Path)
    requires path in s.state.spool
    ensures var t := Next(x, s, step);
      && (path !in t.state.spool <==>
            step.PruneSource? && step.key == path && step.days >= 1 && AnsweredLongAgo(s.state, path, step.now, step.days))
      && (path in t.state.spool ==> t.state.spool[path] == s.state.spool[path])
  {
    hide Apply, ApplyAll, Sorted, Unreadable;
  }

  /** One step keeps an acknowledgement as it is, or has just written one where there was none: for
      the file then at its source, with the step's own clock reading. */
  lemma AckStep(x: Config, s: System, step: Step, key: Path)
    requires key in Next(x, s, step).state.acks
    ensures var ack := Next(x, s, step).state.acks[key];
      if key in s.state.acks then s.state.acks[key] == ack
      else step.AckNext? && ack.at == step.now && ack.source in s.state.spool && ack.file == FileSha(s.state.spool[ack.source])
  {
    hide Apply, ApplyAll, Sorted, Unreadable;
  }

  lemma {:induction false} AcksTraced(x: Config, steps: seq<Step>, key: Path) returns (j: nat)
    requires key in Run(x, Start, steps).state.acks
    ensures j < |steps| && steps[j].AckNext? && steps[j].now == Run(x, Start, steps).state.acks[key].at
  {
    hide Next;
    var n := |steps| - 1;
    AckStep(x, Run(x, Start, steps[..n]), steps[n], key);
    var before := Run(x, Start, steps[..n]).state.acks;
    if key in before && before[key] == Run(x, Start, steps).state.acks[key] {
      j := AcksTraced(x, steps[..n], key);
    } else {
      j := n;
    }
  }

  /** Step k took this file from this path, at least the retention after the
      acknowledgement that step j wrote. */
  ghost predicate TakenAfter(x: Config, steps: seq<Step>, path: Path, file: File, j: int, k: int) {
    && 0 <= j < k < |steps|
    && steps[k].PruneSource? && steps[k].key == path && steps[k].days >= 1
    && path in Run(x, Start, steps[..k]).state.spool && Run(x, Start, steps[..k]).state.spool[path] == file
    && AnsweredLongAgo(Run(x, Start, steps[..k]).state, path, steps[k].now, steps[k].days)
    && steps[j].AckNext? && steps[k].now - steps[j].now >= steps[k].days * 24 * 60 * 60
  }

  /** In every run, with crashes anywhere, a written file that is no longer at its path was
      taken by a prune, at least its retention after it was acknowledged, and by nothing else. */
  lemma {:induction false} KeptForRetention(x: Config, steps: seq<Step>, path: Path, file: File) returns (j: int, k: int)
    requires var s := Run(x, Start, steps); (path, file) in s.written && !(path in s.state.spool && s.state.spool[path] == file)
    ensures TakenAfter(x, steps, path, file, j, k)
  {
    hide Next, AnsweredLongAgo;
    var n := |steps| - 1;
    var init := steps[..n];
    var before := Run(x, Start, init);
    WrittenStep(x, before, steps[n], path, file);
    if path in before.state.spool && before.state.spool[path] == file {
      StepTakesExactly(x, before, steps[n], path);
      AgeOfAnswer(before.state, path, steps[n].now, steps[n].days);
      j := AcksTraced(x, init, path);
      k := n;
    } else {
      j, k := KeptForRetention(x, init, path, file);
      assert init[..k] == steps[..k];
    }
  }

  lemma AgeOfAnswer(s: State, path: Path, now: int, days: int)
    requires path in s.spool && AnsweredLongAgo(s, path, now, days)
    ensures path in s.acks && now - s.acks[path].at >= days * 24 * 60 * 60
  {
  }

  /** What a step writes is at its path right after it. */
  lemma WrittenStep(x: Config, s: System, step: Step, path: Path, file: File)
    requires (path, file) in Next(x, s, step).written
    ensures (path, file) in s.written || (path in Next(x, s, step).state.spool && Next(x, s, step).state.spool[path] == file)
  {
    hide Apply, ApplyAll, Sorted, Unreadable;
  }

  // ---------- whose events, and whose nodes ----------

  /** Every event is of the configured operator and producer, and creates nodes of its own. */
  ghost predicate OwnEvents(x: Config, c: Canon) {
    && (forall id | id in c.events ::
          && (x.operator.Some? ==> c.events[id].operator == x.operator.value)
          && (x.node.Some? ==> c.events[id].node == x.node.value)
          && (forall n | n in c.events[id].subjects :: n in c.nodes))
    && (forall a, b, n | a in c.events && b in c.events && n in c.events[a].subjects && n in c.events[b].subjects :: a == b)
    && (forall id | id in c.events :: forall i, j | 0 <= i < j < |c.events[id].subjects| :: c.events[id].subjects[i] != c.events[id].subjects[j])
  }

  lemma ApplyKeepsOwn(x: Config, c: Canon, e: Envelope)
    requires OwnEvents(x, c)
    ensures OwnEvents(x, Apply(x, c, e).0)
  {
  }

  lemma {:induction false} ApplyAllKeepsOwn(x: Config, c: Canon, es: seq<Envelope>)
    requires OwnEvents(x, c)
    ensures OwnEvents(x, ApplyAll(x, c, es).0)
  {
    hide OwnEvents, Apply;
    if es != [] {
      ApplyAllKeepsOwn(x, c, es[..|es| - 1]);
      ApplyKeepsOwn(x, ApplyAll(x, c, es[..|es| - 1]).0, es[|es| - 1]);
    }
  }

  /** Along every run the store holds events of the configured operator and producer only,
      and no two of them, nor one twice, create the same node. */
  lemma {:induction false} OnlyOwnEvents(x: Config, steps: seq<Step>)
    ensures OwnEvents(x, Run(x, Start, steps).state.canon)
  {
    if steps != [] {
      var n := |steps| - 1;
      OnlyOwnEvents(x, steps[..n]);
      var s := Run(x, Start, steps[..n]);
      hide OwnEvents, Apply, ApplyAll, Sorted, Unreadable, Run;
      match steps[n] {
        case Direct(e) => ApplyKeepsOwn(x, s.state.canon, e);
        case CommitGroup(count) =>
          if s.phase.Applying? && |s.phase.outcomes| < |s.phase.items| {
            var done := |s.phase.outcomes|;
            var end := if |s.phase.items| - done < count then |s.phase.items| else done + count;
            ApplyAllKeepsOwn(x, s.state.canon, Envelopes(s.phase.items[done..end]));
          }
        case _ => assert Next(x, s, steps[n]).state.canon == s.state.canon;
      }
      assert Run(x, Start, steps) == Next(x, s, steps[n]) by { RunStep(x, steps); }
    }
  }

  lemma RunStep(x: Config, steps: seq<Step>)
    requires steps != []
    ensures Run(x, Start, steps) == Next(x, Run(x, Start, steps[..|steps| - 1]), steps[|steps| - 1])
  {
    hide Next;
  }

  // ---------- the order a compile applies in ----------

  /** One text before another, by code points; a proper prefix comes first. */
  predicate TextBefore(a: string, b: string) {
    |b| > 0 && (|a| == 0 || a[0] < b[0] || (a[0] == b[0] && TextBefore(a[1..], b[1..])))
  }

  /** By capture time, then event identity, then producer and file name. */
  predicate AppliedBefore(a: Item, b: Item) {
    || TextBefore(a.envelope.capturedAt, b.envelope.capturedAt)
    || (a.envelope.capturedAt == b.envelope.capturedAt
        && (|| TextBefore(a.envelope.id, b.envelope.id)
            || (a.envelope.id == b.envelope.id
                && (TextBefore(a.path.node, b.path.node) || (a.path.node == b.path.node && TextBefore(a.path.name, b.path.name))))))
  }

  /** A terminated text in front decides, unless the two are equal. */
  lemma {:induction false} TextDecides(a: string, b: string, restA: seq<int>, restB: seq<int>)
    ensures LexLeq(TextKey(a) + [0] + restA, TextKey(b) + [0] + restB) <==> TextBefore(a, b) || (a == b && LexLeq(restA, restB))
  {
    var ka, kb := TextKey(a) + [0] + restA, TextKey(b) + [0] + restB;
    if a == [] || b == [] {
      assert a == [] ==> ka[0] == 0 && ka[1..] == restA;
      assert b == [] ==> kb[0] == 0 && kb[1..] == restB;
      assert a != [] ==> ka[0] == a[0] as int + 1;
      assert b != [] ==> kb[0] == b[0] as int + 1;
    } else {
      assert ka[0] == a[0] as int + 1 && kb[0] == b[0] as int + 1;
      assert ka[1..] == TextKey(a[1..]) + [0] + restA && kb[1..] == TextKey(b[1..]) + [0] + restB;
      TextDecides(a[1..], b[1..], restA, restB);
      assert a == b <==> a[0] == b[0] && a[1..] == b[1..] by {
        assert a == [a[0]] + a[1..] && b == [b[0]] + b[1..];
      }
    }
  }

  lemma {:induction false} LastTextDecides(a: string, b: string)
    ensures LexLeq(TextKey(a), TextKey(b)) <==> TextBefore(a, b) || a == b
  {
    if a != [] && b != [] {
      assert TextKey(a)[1..] == TextKey(a[1..]) && TextKey(b)[1..] == TextKey(b[1..]);
      LastTextDecides(a[1..], b[1..]);
      assert a == [a[0]] + a[1..] && b == [b[0]] + b[1..];
    }
  }

  lemma ItemKeyOrder(a: Item, b: Item)
    ensures LexLeq(ItemKey(a), ItemKey(b)) <==>
      AppliedBefore(a, b) || (a.envelope.capturedAt == b.envelope.capturedAt && a.envelope.id == b.envelope.id && a.path == b.path)
  {
    hide LexLeq, TextKey, TextBefore;
    var a3, b3 := TextKey(a.path.name), TextKey(b.path.name);
    var a2, b2 := TextKey(a.path.node) + [0] + a3, TextKey(b.path.node) + [0] + b3;
    var a1, b1 := TextKey(a.envelope.id) + [0] + a2, TextKey(b.envelope.id) + [0] + b2;
    assert ItemKey(a) == TextKey(a.envelope.capturedAt) + [0] + a1 && ItemKey(b) == TextKey(b.envelope.capturedAt) + [0] + b1;
    TextDecides(a.envelope.capturedAt, b.envelope.capturedAt, a1, b1);
    TextDecides(a.envelope.id, b.envelope.id, a2, b2);
    TextDecides(a.path.node, b.path.node, a3, b3);
    LastTextDecides(a.path.name, b.path.name);
  }

  /** Some acknowledgement says that exactly this file, at this path, has been applied. */
  predicate Answered(s: State, path: Path, e: Envelope)
    requires path in s.spool
  {
    var key := Path(e.node, e.id);
    && key in s.acks && s.acks[key].id == e.id && s.acks[key].node == e.node && s.acks[key].source == path
    && s.acks[key].payload == EnvelopeSha(e) && s.acks[key].file == FileSha(s.spool[path])
  }

  /** A compile applies exactly the readable files without valid evidence of their commit,
      in the order of capture time, event identity, producer and file name. */
  lemma AppliesInOrder(s: State, listing: seq<Path>)
    requires Lists(listing, s.spool.Keys)
    ensures var items := Sorted(s, listing);
      && (forall i, j | 0 <= i < j < |items| :: AppliedBefore(items[i], items[j]))
      && (forall item :: item in items <==>
            item.path in s.spool && s.spool[item.path].Readable? && s.spool[item.path].envelope == item.envelope
            && !Answered(s, item.path, item.envelope))
  {
    assert forall path, e | path in s.spool :: AckCommitted(s, path, e) == Answered(s, path, e);
    var inputs, items := Inputs(s, listing), Sorted(s, listing);
    SortIsSorted(inputs, ItemKey);
    InputsOf(s, listing);
    assert forall item :: item in items <==> item in multiset(items);
    assert forall item :: item in inputs <==> item in multiset(inputs);
    hide Inputs, AckCommitted, Answered;
    forall i, j | 0 <= i < j < |items|
      ensures AppliedBefore(items[i], items[j])
    {
      ItemKeyOrder(items[i], items[j]);
      PathsApart(inputs, items, i, j);
    }
  }

  lemma PathsApart(inputs: seq<Item>, items: seq<Item>, i: nat, j: nat)
    requires multiset(inputs) == multiset(items) && i < j < |items|
    requires forall a, b | 0 <= a < b < |inputs| :: inputs[a].path != inputs[b].path
    ensures items[i].path != items[j].path
  {
    if items[i].path == items[j].path {
      var x := items[i];
      assert items[i] in multiset(inputs) && items[j] in multiset(inputs);
      assert items[j] == x by {
        var a :| 0 <= a < |inputs| && inputs[a] == items[i];
        var b :| 0 <= b < |inputs| && inputs[b] == items[j];
      }
      CountTwice(items, i, j);
      CountOnce(inputs, x);
    }
  }

  lemma CountTwice(s: seq<Item>, i: nat, j: nat)
    requires i < j < |s| && s[i] == s[j]
    ensures multiset(s)[s[i]] >= 2
  {
    assert s == s[..j] + s[j..];
    assert s[i] in s[..j] && s[j] in s[j..];
    assert s[..j][i] == s[i] && s[j..][0] == s[j];
    assert multiset(s[..j])[s[i]] >= 1 && multiset(s[j..])[s[i]] >= 1;
  }

  lemma {:induction false} CountOnce(s: seq<Item>, x: Item)
    requires forall a, b | 0 <= a < b < |s| :: s[a].path != s[b].path
    ensures multiset(s)[x] <= 1
  {
    if s != [] {
      assert s == [s[0]] + s[1..];
      CountOnce(s[1..], x);
      if x in s[1..] {
        var k :| 0 <= k < |s[1..]| && s[1..][k] == x;
        assert s[0].path != s[k + 1].path;
      }
    }
  }

  lemma {:induction false} InputsOf(s: State, listing: seq<Path>)
    requires (forall i, j | 0 <= i < j < |listing| :: listing[i] != listing[j]) && forall p | p in listing :: p in s.spool
    ensures var inputs := Inputs(s, listing);
      && (forall a, b | 0 <= a < b < |inputs| :: inputs[a].path != inputs[b].path)
      && (forall item :: item in inputs <==>
            item.path in listing && s.spool[item.path].Readable? && s.spool[item.path].envelope == item.envelope
            && !AckCommitted(s, item.path, item.envelope))
  {
    hide AckCommitted;
    if listing != [] {
      var init, p := listing[..|listing| - 1], listing[|listing| - 1];
      assert listing == init + [p];
      InputsOf(s, init);
      var inputs, rest := Inputs(s, listing), Inputs(s, init);
      assert forall item :: item in rest ==> item.path in init && item.path != p;
      forall a, b | 0 <= a < b < |inputs|
        ensures inputs[a].path != inputs[b].path
      {
        assert inputs[a] in rest;
      }
    }
  }

  // ---------- one capture ----------

  /** A capture is inserted exactly when it is of the configured operator and producer, its event has not been
      consumed and its wording not captured, and its event and nodes are new, each node named once; it
      is answered as a duplicate when the same event with the same content was consumed, or, for a new event, the wording captured. */
  lemma AnswersExactly(x: Config, c: Canon, e: Envelope)
    ensures var answer := Apply(x, c, e).1; var unseen := Ours(x, e) && e.id !in c.consumed;
      && (answer == Captured <==>
            unseen && (e.operator, e.content) !in c.firsts && e.id !in c.events && e.id !in c.otherEvents
            && (forall i, j | 0 <= i < j < |e.subjects| :: e.subjects[i] != e.subjects[j]) && (forall i | 0 <= i < |e.subjects| :: e.subjects[i] !in c.nodes))
      && (answer == Duplicate <==>
            (Ours(x, e) && e.id in c.consumed && c.consumed[e.id] == EnvelopeSha(e)) || (unseen && (e.operator, e.content) in c.firsts))
      && (answer != Captured ==> Apply(x, c, e).0 == c)
  {
    assert (forall s | s in e.subjects :: s !in c.nodes) <==> (forall i | 0 <= i < |e.subjects| :: e.subjects[i] !in c.nodes);
  }

  predicate Ours(x: Config, e: Envelope) {
    (x.operator == None || x.operator == Some(e.operator)) && (x.node == None || x.node == Some(e.node))
  }
}
