/** Key files and key rows: a blob is published, checked, and referred to by a row
    that commits later, whatever crashes or reconciles in between. */
module KeyPublication {
  import opened Outcomes

  type Blob = seq<int>
  datatype BlobSha = BlobSha(blob: Blob)

  /** A name in the keys directory. A ceremony creates one fresh key; its number names
      the key, the key's final file and its staging file. */
  datatype Name = Final(c: nat) | Staged(c: nat)

  /** The file columns of a committed `authority_keys` row. */
  datatype KeyRow = KeyRow(path: Name, sha: BlobSha)

  datatype Phase =
    | Staging | InTransaction | Linked | Unlinked | Published | Reverified | Pending | Committed | CleaningStage | CleaningFinal | Gone

  /** A ceremony that creates a key. Enrollment, rotation and restore publish and read
      back inside the transaction that commits the row; pairing publishes with its
      request and commits the row when it is finalized. `published` is the flag the
      exception path of the former consults. */
  datatype Ceremony = Ceremony(blob: Blob, pairing: bool, phase: Phase, published: bool)
  {
    /** A process is running it; a pending request is waiting for its package. */
    predicate Active() { phase !in {Pending, Committed, Gone} }
  }

  /** `reconciling` maps each reconciliation under way to the names it found referenced. */
  datatype State = State(
    dir: map<Name, Blob>, quarantine: seq<Blob>, rows: map<nat, KeyRow>, ceremonies: map<nat, Ceremony>,
    writer: Option<nat>, reconciling: map<nat, set<Name>>)

  datatype Step =
    | Stage(c: nat, blob: Blob, pairing: bool)
    | Begin(c: nat)
    | Link(c: nat)
    | Unstage(c: nat)
    | Confirm(c: nat)
    | Reverify(c: nat)
    | Commit(c: nat)
    | Request(c: nat)
    | Finalize(c: nat)
    | Fail(c: nat)
    | CleanStage(c: nat)
    | CleanFinal(c: nat)
    | Crash(c: nat)
    | ReadRows(r: nat)
    | MoveOrphan(r: nat, name: Name)
    | EndReconcile(r: nat)

  function PhaseOf(s: State, c: nat): Phase { if c in s.ceremonies then s.ceremonies[c].phase else Gone }

  function To(s: State, c: nat, phase: Phase): State
    requires c in s.ceremonies
  {
    s.(ceremonies := s.ceremonies[c := s.ceremonies[c].(phase := phase)])
  }

  function Freed(s: State, c: nat): Option<nat> { if s.writer == Some(c) then None else s.writer }

  function MoveToQuarantine(s: State, name: Name): State
    requires name in s.dir
  {
    s.(dir := s.dir - {name}, quarantine := s.quarantine + [s.dir[name]])
  }

  predicate RowsOnDisk(rows: map<nat, KeyRow>, dir: map<Name, Blob>) {
    forall k | k in rows :: rows[k].path in dir && BlobSha(dir[rows[k].path]) == rows[k].sha
  }

  function Referenced(rows: map<nat, KeyRow>): set<Name> { set k | k in rows :: rows[k].path }

  /** Where an exception leads: pairing has no clean-up. */
  function Failed(s: State, c: nat): State
    requires c in s.ceremonies
  {
    To(s, c, if s.ceremonies[c].pairing then Gone else CleaningStage).(writer := Freed(s, c))
  }

  function WithRow(s: State, c: nat): State
    requires c in s.ceremonies
  {
    To(s, c, Committed).(rows := s.rows[c := KeyRow(Final(c), BlobSha(s.ceremonies[c].blob))], writer := Freed(s, c))
  }

  function CeremonyStep(s: State, step: Step): State {
    match step
    case Stage(c, blob, pairing) =>
      if c in s.ceremonies then s
      else s.(dir := s.dir[Staged(c) := blob], ceremonies := s.ceremonies[c := Ceremony(blob, pairing, Staging, false)])
    case Begin(c) =>
      if PhaseOf(s, c) != Staging || s.ceremonies[c].pairing || s.writer.Some? then s else To(s, c, InTransaction).(writer := Some(c))
    case Link(c) =>
      if c !in s.ceremonies || s.ceremonies[c].phase != (if s.ceremonies[c].pairing then Staging else InTransaction) then s
      else if Final(c) in s.dir || Staged(c) !in s.dir then Failed(s, c)
      else To(s, c, Linked).(dir := s.dir[Final(c) := s.dir[Staged(c)]])
    case Unstage(c) =>
      if PhaseOf(s, c) != Linked then s
      else if Staged(c) !in s.dir then Failed(s, c)
      else To(s, c, Unlinked).(dir := s.dir - {Staged(c)})
    case Confirm(c) =>
      if PhaseOf(s, c) != Unlinked then s
      else if Final(c) !in s.dir then Failed(s, c)
      else s.(ceremonies := s.ceremonies[c := s.ceremonies[c].(phase := Published, published := true)])
    case Reverify(c) =>
      if PhaseOf(s, c) != Published || s.ceremonies[c].pairing then s
      else if Final(c) in s.dir && s.dir[Final(c)] == s.ceremonies[c].blob then To(s, c, Reverified)
      else Failed(s, c)
    case Commit(c) => if PhaseOf(s, c) != Reverified then s else WithRow(s, c)
    case Request(c) =>
      if PhaseOf(s, c) != Published || !s.ceremonies[c].pairing || s.writer.Some? then s else To(s, c, Pending)
    case Finalize(c) => if PhaseOf(s, c) != Pending || s.writer.Some? then s else WithRow(s, c)
    case Fail(c) =>
      if PhaseOf(s, c) !in {Staging, InTransaction, Linked, Unlinked, Published, Reverified} then s else Failed(s, c)
    case CleanStage(c) =>
      if PhaseOf(s, c) != CleaningStage then s else To(s, c, CleaningFinal).(dir := s.dir - {Staged(c)})
    case CleanFinal(c) =>
      if PhaseOf(s, c) != CleaningFinal then s
      else if s.ceremonies[c].published && Final(c) in s.dir then To(MoveToQuarantine(s, Final(c)), c, Gone)
      else To(s, c, Gone)
    case Crash(c) => if c in s.ceremonies && s.ceremonies[c].Active() then To(s, c, Gone).(writer := Freed(s, c)) else s
    case _ => s
  }

  function ReconcileStep(s: State, step: Step): State {
    match step
    case ReadRows(r) =>
      if r in s.reconciling || !RowsOnDisk(s.rows, s.dir) then s
      else s.(reconciling := s.reconciling[r := Referenced(s.rows)])
    case MoveOrphan(r, name) =>
      if r !in s.reconciling || name in s.reconciling[r] || name !in s.dir then s else MoveToQuarantine(s, name)
    case EndReconcile(r) => s.(reconciling := s.reconciling - {r})
    case _ => s
  }

  function Next(s: State, step: Step): State { ReconcileStep(CeremonyStep(s, step), step) }

  const Start: State := State(map[], [], map[], map[], None, map[])

  function Run(steps: seq<Step>): State {
    if steps == [] then Start else Next(Run(steps[..|steps| - 1]), steps[|steps| - 1])
  }

  // ---------- what every state satisfies ----------

  /** Files hold their ceremony's blob, and rows are those of the committed ceremonies. */
  predicate Sound(s: State) {
    && (forall n | n in s.dir :: n.c in s.ceremonies && s.dir[n] == s.ceremonies[n.c].blob)
    && (forall c | c in s.rows :: PhaseOf(s, c) == Committed && c in s.ceremonies
          && s.rows[c] == KeyRow(Final(c), BlobSha(s.ceremonies[c].blob)))
    && (forall c | c in s.ceremonies && s.ceremonies[c].phase == Committed :: c in s.rows)
    && (forall c | c in s.ceremonies && s.ceremonies[c].phase == Pending :: s.ceremonies[c].pairing)
  }

  /** A ceremony only moves forward. */
  function Rank(phase: Phase): nat {
    match phase
    case Staging => 0
    case InTransaction => 1
    case Linked => 2
    case Unlinked => 3
    case Published => 4
    case Reverified => 5
    case Pending => 5
    case Committed => 6
    case CleaningStage => 7
    case CleaningFinal => 8
    case Gone => 9
  }

  /** The ceremony relies on its file: it has read it back, or, for pairing, published it. */
  predicate Relies(s: State, c: nat) {
    c in s.ceremonies && (if s.ceremonies[c].pairing then 4 else 5) <= Rank(s.ceremonies[c].phase) <= 6
  }

  /** The step is a reconciliation moving this ceremony's file away. */
  predicate Takes(s: State, step: Step, c: nat) {
    step.MoveOrphan? && step.name == Final(c) && step.r in s.reconciling && step.name !in s.reconciling[step.r] && step.name in s.dir
  }

  /** What one step does to one ceremony and its file. */
  predicate FileFollows(s: State, t: State, step: Step, c: nat) {
    && (c in s.ceremonies ==>
          && c in t.ceremonies && t.ceremonies[c].blob == s.ceremonies[c].blob && t.ceremonies[c].pairing == s.ceremonies[c].pairing
          && Rank(s.ceremonies[c].phase) <= Rank(t.ceremonies[c].phase))
    && (Relies(s, c) && Relies(t, c) ==> (Final(c) in t.dir <==> Final(c) in s.dir && !Takes(s, step, c)))
    && (!Relies(s, c) && Relies(t, c) ==> Final(c) in t.dir && c in s.ceremonies)
  }

  /** A step of ceremony `me` touches its own files, phase and row only. */
  predicate OwnEffect(s: State, t: State, me: nat) {
    && me in s.ceremonies && me in t.ceremonies
    && t == s.(dir := t.dir, quarantine := t.quarantine, rows := t.rows, writer := t.writer,
               ceremonies := s.ceremonies[me := t.ceremonies[me]])
    && t.dir - {Final(me), Staged(me)} == s.dir - {Final(me), Staged(me)}
    && (forall n | n in {Final(me), Staged(me)} && n in t.dir :: t.dir[n] == s.ceremonies[me].blob)
    && t.ceremonies[me].blob == s.ceremonies[me].blob
    && (t.ceremonies[me].phase == Pending ==> t.ceremonies[me].pairing)
    && if t.ceremonies[me].phase == Committed then t.rows == s.rows[me := KeyRow(Final(me), BlobSha(s.ceremonies[me].blob))]
       else t.rows == s.rows && s.ceremonies[me].phase != Committed
  }

  lemma OwnEffectKeepsSound(s: State, t: State, step: Step, me: nat)
    requires Sound(s) && OwnEffect(s, t, me) && !step.MoveOrphan?
    ensures Sound(t)
    ensures forall c | c != me :: FileFollows(s, t, step, c)
  {
    forall n | n in t.dir
      ensures n.c in t.ceremonies && t.dir[n] == t.ceremonies[n.c].blob
    {
      if n !in {Final(me), Staged(me)} {
        assert n in t.dir - {Final(me), Staged(me)};
        assert n in s.dir && s.dir[n] == t.dir[n];
      }
    }
    forall c | c != me
      ensures FileFollows(s, t, step, c)
    {
      assert Final(c) in t.dir - {Final(me), Staged(me)} <==> Final(c) in t.dir;
      assert Final(c) in s.dir - {Final(me), Staged(me)} <==> Final(c) in s.dir;
    }
  }

  lemma StageFollows(s: State, step: Step)
    requires Sound(s) && step.Stage?
    ensures Sound(Next(s, step)) && forall c :: FileFollows(s, Next(s, step), step, c)
  {
    NextByCeremony(s, step);
    var t := CeremonyStep(s, step);
    if step.c !in s.ceremonies {
      assert t == s.(dir := s.dir[Staged(step.c) := step.blob], ceremonies := s.ceremonies[step.c := Ceremony(step.blob, step.pairing, Staging, false)]);
    }
    hide Next, CeremonyStep;
  }

  lemma ReconcileFollows(s: State, step: Step)
    requires Sound(s) && (step.ReadRows? || step.MoveOrphan? || step.EndReconcile?)
    ensures Sound(Next(s, step)) && forall c :: FileFollows(s, Next(s, step), step, c)
  {
    hide RowsOnDisk;
  }

  /** The steps of one running or pending ceremony. */
  predicate OwnStep(step: Step, me: nat) {
    step in {Begin(me), Link(me), Unstage(me), Confirm(me), Reverify(me), Commit(me), Request(me), Finalize(me), Fail(me),
             CleanStage(me), CleanFinal(me), Crash(me)}
  }

  /** A step that changes the phase and the flag only. */
  lemma PhaseEffect(s: State, t: State, step: Step, me: nat, phase: Phase)
    requires Sound(s) && me in s.ceremonies && !step.MoveOrphan? && phase != Committed
    requires s.ceremonies[me].phase != Committed && (phase == Pending ==> s.ceremonies[me].pairing)
    requires Rank(s.ceremonies[me].phase) <= Rank(phase)
    requires !Relies(s, me) && Relies(To(s, me, phase), me) ==> Final(me) in s.dir
    requires me in t.ceremonies && t == s.(writer := t.writer, ceremonies := s.ceremonies[me := t.ceremonies[me]])
    requires t.ceremonies[me] == s.ceremonies[me].(phase := phase, published := t.ceremonies[me].published)
    ensures OwnEffect(s, t, me) && FileFollows(s, t, step, me)
  {
    assert OwnEffect(s, t, me);
    hide Sound, OwnEffect;
  }

  lemma EarlySteps(s: State, step: Step, me: nat)
    requires Sound(s) && me in s.ceremonies && step in {Begin(me), Request(me)}
    ensures var t := CeremonyStep(s, step); t == s || (OwnEffect(s, t, me) && FileFollows(s, t, step, me))
  {
    var t := CeremonyStep(s, step);
    if t != s {
      hide Sound, OwnEffect, FileFollows;
      PhaseEffect(s, t, step, me, t.ceremonies[me].phase);
    }
  }

  lemma ReverifyEffect(s: State, me: nat)
    requires Sound(s) && me in s.ceremonies
    ensures var t := CeremonyStep(s, Reverify(me)); t == s || (OwnEffect(s, t, me) && FileFollows(s, t, Reverify(me), me))
  {
    var t := CeremonyStep(s, Reverify(me));
    if t != s {
      hide Sound, OwnEffect, FileFollows;
      PhaseEffect(s, t, Reverify(me), me, t.ceremonies[me].phase);
    }
  }

  lemma StopEffect(s: State, step: Step, me: nat)
    requires Sound(s) && me in s.ceremonies && step in {Fail(me), Crash(me)}
    ensures var t := CeremonyStep(s, step); t == s || (OwnEffect(s, t, me) && FileFollows(s, t, step, me))
  {
    var t := CeremonyStep(s, step);
    if t != s {
      hide Sound, OwnEffect, FileFollows;
      PhaseEffect(s, t, step, me, t.ceremonies[me].phase);
    }
  }

  lemma LinkEffect(s: State, me: nat)
    requires Sound(s) && me in s.ceremonies
    ensures var t := CeremonyStep(s, Link(me)); t == s || (OwnEffect(s, t, me) && FileFollows(s, t, Link(me), me))
  {
    var t := CeremonyStep(s, Link(me));
    if t != s && (Final(me) in s.dir || Staged(me) !in s.dir) {
      hide Sound, OwnEffect, FileFollows;
      PhaseEffect(s, t, Link(me), me, t.ceremonies[me].phase);
    } else if t != s {
      assert t == To(s, me, Linked).(dir := s.dir[Final(me) := s.dir[Staged(me)]]);
      hide CeremonyStep;
    }
  }

  lemma UnstageEffect(s: State, me: nat)
    requires Sound(s) && me in s.ceremonies
    ensures var t := CeremonyStep(s, Unstage(me)); t == s || (OwnEffect(s, t, me) && FileFollows(s, t, Unstage(me), me))
  {
    var t := CeremonyStep(s, Unstage(me));
    if t != s && Staged(me) !in s.dir {
      hide Sound, OwnEffect, FileFollows;
      PhaseEffect(s, t, Unstage(me), me, t.ceremonies[me].phase);
    } else if t != s {
      assert t == To(s, me, Unlinked).(dir := s.dir - {Staged(me)});
      hide CeremonyStep;
    }
  }

  lemma ConfirmEffect(s: State, me: nat)
    requires Sound(s) && me in s.ceremonies
    ensures var t := CeremonyStep(s, Confirm(me)); t == s || (OwnEffect(s, t, me) && FileFollows(s, t, Confirm(me), me))
  {
    var t := CeremonyStep(s, Confirm(me));
    if t != s {
      hide Sound, OwnEffect, FileFollows;
      PhaseEffect(s, t, Confirm(me), me, t.ceremonies[me].phase);
    }
  }

  lemma CleanStageEffect(s: State, me: nat)
    requires Sound(s) && me in s.ceremonies
    ensures var t := CeremonyStep(s, CleanStage(me)); t == s || (OwnEffect(s, t, me) && FileFollows(s, t, CleanStage(me), me))
  {
  }

  lemma CleanFinalEffect(s: State, me: nat)
    requires Sound(s) && me in s.ceremonies
    ensures var t := CeremonyStep(s, CleanFinal(me)); t == s || (OwnEffect(s, t, me) && FileFollows(s, t, CleanFinal(me), me))
  {
    var t := CeremonyStep(s, CleanFinal(me));
    if t != s && s.ceremonies[me].published && Final(me) in s.dir {
      assert t == To(MoveToQuarantine(s, Final(me)), me, Gone);
      hide CeremonyStep;
    } else if t != s {
      hide Sound, OwnEffect, FileFollows;
      PhaseEffect(s, t, CleanFinal(me), me, Gone);
    }
  }

  lemma RowEffect(s: State, step: Step, me: nat)
    requires Sound(s) && me in s.ceremonies && step in {Commit(me), Finalize(me)}
    ensures var t := CeremonyStep(s, step); t == s || (OwnEffect(s, t, me) && FileFollows(s, t, step, me))
  {
  }

  lemma OwnFollows(s: State, step: Step, me: nat)
    requires Sound(s) && me in s.ceremonies && OwnStep(step, me)
    ensures Sound(Next(s, step)) && forall c :: FileFollows(s, Next(s, step), step, c)
  {
    hide FileFollows, Sound, CeremonyStep, OwnEffect;
    var t := CeremonyStep(s, step);
    match step {
      case Link(_) => LinkEffect(s, me);
      case Unstage(_) => UnstageEffect(s, me);
      case Confirm(_) => ConfirmEffect(s, me);
      case CleanStage(_) => CleanStageEffect(s, me);
      case CleanFinal(_) => CleanFinalEffect(s, me);
      case Commit(_) => RowEffect(s, step, me);
      case Finalize(_) => RowEffect(s, step, me);
      case Reverify(_) => ReverifyEffect(s, me);
      case Fail(_) => StopEffect(s, step, me);
      case Crash(_) => StopEffect(s, step, me);
      case _ => EarlySteps(s, step, me);
    }
    assert Next(s, step) == t;
    NothingFollows(s, step);
    if t != s {
      OwnEffectKeepsSound(s, t, step, me);
    }
  }

  lemma NothingFollows(s: State, step: Step)
    requires !step.MoveOrphan?
    ensures forall c :: FileFollows(s, s, step, c)
  {
  }

  lemma NextFollows(s: State, step: Step)
    requires Sound(s)
    ensures Sound(Next(s, step)) && forall c :: FileFollows(s, Next(s, step), step, c)
  {
    hide Sound, FileFollows, CeremonyStep;
    match step {
      case Stage(_, _, _) => StageFollows(s, step);
      case ReadRows(_) => ReconcileFollows(s, step);
      case MoveOrphan(_, _) => ReconcileFollows(s, step);
      case EndReconcile(_) => ReconcileFollows(s, step);
      case Begin(c) => OwnOrNothing(s, step, c);
      case Link(c) => OwnOrNothing(s, step, c);
      case Unstage(c) => OwnOrNothing(s, step, c);
      case Confirm(c) => OwnOrNothing(s, step, c);
      case Reverify(c) => OwnOrNothing(s, step, c);
      case Commit(c) => OwnOrNothing(s, step, c);
      case Request(c) => OwnOrNothing(s, step, c);
      case Finalize(c) => OwnOrNothing(s, step, c);
      case Fail(c) => OwnOrNothing(s, step, c);
      case CleanStage(c) => OwnOrNothing(s, step, c);
      case CleanFinal(c) => OwnOrNothing(s, step, c);
      case Crash(c) => OwnOrNothing(s, step, c);
    }
  }

  lemma OwnOrNothing(s: State, step: Step, c: nat)
    requires Sound(s) && OwnStep(step, c)
    ensures Sound(Next(s, step)) && forall d :: FileFollows(s, Next(s, step), step, d)
  {
    hide Sound, FileFollows;
    if c in s.ceremonies {
      OwnFollows(s, step, c);
    } else {
      assert Next(s, step) == s;
      NothingFollows(s, step);
    }
  }

  lemma {:induction false} RunsAreSound(steps: seq<Step>)
    ensures Sound(Run(steps))
  {
    hide Sound, Next;
    if steps == [] {
      StartIsSound();
    } else {
      RunsAreSound(steps[..|steps| - 1]);
      NextFollows(Run(steps[..|steps| - 1]), steps[|steps| - 1]);
    }
  }

  lemma StartIsSound()
    ensures Sound(Start)
  {
  }

  // ---------- exactly when a row has its file ----------

  /** At step i a reconciliation moved this ceremony's file although the ceremony already relied on it. */
  ghost predicate TakenAt(steps: seq<Step>, c: nat, i: nat) {
    i < |steps| && Takes(Run(steps[..i]), steps[i], c) && Relies(Run(steps[..i]), c)
  }

  ghost predicate Taken(steps: seq<Step>, c: nat) { exists i: nat :: TakenAt(steps, c, i) }

  lemma {:induction false} MovesForward(steps: seq<Step>, i: nat, c: nat)
    requires i <= |steps| && c in Run(steps[..i]).ceremonies
    ensures var s, t := Run(steps[..i]), Run(steps);
      && c in t.ceremonies && s.ceremonies[c].pairing == t.ceremonies[c].pairing
      && Rank(s.ceremonies[c].phase) <= Rank(t.ceremonies[c].phase)
    decreases |steps|
  {
    if i == |steps| {
      assert steps[..i] == steps;
    } else {
      var init := steps[..|steps| - 1];
      assert init[..i] == steps[..i];
      MovesForward(init, i, c);
      RunsAreSound(init);
      NextFollows(Run(init), steps[|steps| - 1]);
      hide Next, Sound;
      assert FileFollows(Run(init), Run(steps), steps[|steps| - 1], c);
    }
  }

  lemma TakenStep(steps: seq<Step>, step: Step, c: nat)
    ensures Taken(steps + [step], c) <==> Taken(steps, c) || (Takes(Run(steps), step, c) && Relies(Run(steps), c))
  {
    hide Run, Takes, Relies;
    var all := steps + [step];
    if i: nat :| TakenAt(all, c, i) {
      if i < |steps| {
        assert all[..i] == steps[..i] && TakenAt(steps, c, i);
      } else {
        assert all[..i] == steps;
      }
    }
    if i: nat :| TakenAt(steps, c, i) {
      assert all[..i] == steps[..i] && TakenAt(all, c, i);
    }
    if Takes(Run(steps), step, c) && Relies(Run(steps), c) {
      assert all[..|steps|] == steps && TakenAt(all, c, |steps|);
    }
  }

  /** A ceremony that does not rely on its file yet has never had it taken. */
  lemma NotYetTaken(steps: seq<Step>, c: nat)
    requires c in Run(steps).ceremonies && Rank(Run(steps).ceremonies[c].phase) <= 6 && !Relies(Run(steps), c)
    ensures !Taken(steps, c)
  {
    hide Run;
    forall i: nat | TakenAt(steps, c, i)
      ensures false
    {
      MovesForward(steps, i, c);
    }
  }

  /** A ceremony that relies on its file has it if and only if no reconciliation has
      moved it since the ceremony read it back or, for pairing, published it. */
  lemma {:induction false} FileThereUnlessTaken(steps: seq<Step>, c: nat)
    requires Relies(Run(steps), c)
    ensures Final(c) in Run(steps).dir <==> !Taken(steps, c)
  {
    hide Run, Next, Sound, Takes, Taken;
    if steps != [] {
      var n := |steps| - 1;
      var init, step := steps[..n], steps[n];
      assert steps == init + [step];
      assert Run(steps) == Next(Run(init), step) by { RunUnfolds(steps); }
      RunsAreSound(init);
      NextFollows(Run(init), step);
      assert FileFollows(Run(init), Run(steps), step, c);
      TakenStep(init, step, c);
      if Relies(Run(init), c) {
        FileThereUnlessTaken(init, c);
      } else {
        NotYetTaken(init, c);
      }
    } else {
      RunOfNothing();
    }
  }

  lemma RunUnfolds(steps: seq<Step>)
    requires steps != []
    ensures Run(steps) == Next(Run(steps[..|steps| - 1]), steps[|steps| - 1])
  {
  }

  lemma RunOfNothing()
    ensures Run([]) == Start
  {
  }

  /** After any run, whatever crashed and whatever overlapped, every committed key row's
      blob is on disk with its recorded digest if and only if no reconciliation moved the
      file of a ceremony that had already relied on it and has committed. */
  lemma RowsOnDiskExactly(steps: seq<Step>)
    ensures RowsOnDisk(Run(steps).rows, Run(steps).dir) <==> forall c | c in Run(steps).rows :: !Taken(steps, c)
  {
    hide Run, Taken;
    RunsAreSound(steps);
    var s := Run(steps);
    forall c | c in s.rows
      ensures s.rows[c] == KeyRow(Final(c), BlobSha(s.ceremonies[c].blob))
      ensures Final(c) in s.dir <==> !Taken(steps, c)
    {
      FileThereUnlessTaken(steps, c);
    }
  }

  // ---------- reconciliations apart from ceremonies ----------

  /** No reconciliation overlaps a running ceremony; a pending request is not running. */
  predicate Apart(s: State, step: Step) {
    && (step.Stage? || step.Finalize? ==> s.reconciling == map[])
    && (step.ReadRows? ==> forall c | c in s.ceremonies :: !s.ceremonies[c].Active())
  }

  ghost predicate AllApart(steps: seq<Step>) {
    forall k | 0 <= k < |steps| :: Apart(Run(steps[..k]), steps[k])
  }

  predicate Separate(s: State) {
    && (s.reconciling != map[] ==> forall c | c in s.ceremonies :: !s.ceremonies[c].Active())
    && (forall r | r in s.reconciling :: Referenced(s.rows) <= s.reconciling[r])
  }

  lemma SeparateStep(s: State, step: Step)
    requires Separate(s) && Apart(s, step)
    ensures Separate(Next(s, step))
  {
    hide RowsOnDisk;
  }

  lemma {:induction false} ApartRunsAreSeparate(steps: seq<Step>)
    requires AllApart(steps)
    ensures Separate(Run(steps))
  {
    hide Separate, Next, Apart;
    if steps == [] {
      assert Separate(Run([])) by { StartIsSeparate(); }
    } else {
      var n := |steps| - 1;
      assert forall k | 0 <= k < n :: steps[..n][..k] == steps[..k];
      ApartRunsAreSeparate(steps[..n]);
      SeparateStep(Run(steps[..n]), steps[n]);
    }
  }

  lemma StartIsSeparate()
    ensures Separate(Run([]))
  {
  }

  lemma SeparateTakesOnlyPending(s: State, step: Step, c: nat)
    requires Sound(s) && Separate(s) && Takes(s, step, c) && Relies(s, c)
    ensures s.ceremonies[c].pairing && s.ceremonies[c].phase == Pending
  {
    assert forall k | k in s.rows :: s.rows[k].path in Referenced(s.rows);
  }

  /** A reconciliation moved the file of a request that was waiting for its package. */
  ghost predicate TakenWhilePending(steps: seq<Step>, c: nat) {
    exists i: nat :: i < |steps| && Takes(Run(steps[..i]), steps[i], c) && PhaseOf(Run(steps[..i]), c) == Pending
  }

  lemma ApartTakesOnlyPending(steps: seq<Step>, c: nat)
    requires AllApart(steps)
    ensures Taken(steps, c) <==> TakenWhilePending(steps, c)
    ensures Taken(steps, c) ==> c in Run(steps).ceremonies && Run(steps).ceremonies[c].pairing
  {
    hide Run, Takes, Apart, Sound, Separate;
    if i: nat :| TakenAt(steps, c, i) {
      assert forall k | 0 <= k < i :: steps[..i][..k] == steps[..k];
      ApartRunsAreSeparate(steps[..i]);
      RunsAreSound(steps[..i]);
      SeparateTakesOnlyPending(Run(steps[..i]), steps[i], c);
      MovesForward(steps, i, c);
    }
    if i: nat :| i < |steps| && Takes(Run(steps[..i]), steps[i], c) && PhaseOf(Run(steps[..i]), c) == Pending {
      PendingRelies(Run(steps[..i]), c);
      assert TakenAt(steps, c, i);
    }
  }

  lemma PendingRelies(s: State, c: nat)
    requires PhaseOf(s, c) == Pending
    ensures Relies(s, c)
  {
  }

  /** At every crash point of enrollments, rotations and restores that no reconciliation
      overlaps, each committed row's blob is on disk with its recorded digest; a pairing
      row's is, if and only if no reconciliation moved it while its request was pending. */
  lemma RowsAlwaysOnDisk(steps: seq<Step>, c: nat)
    requires AllApart(steps) && c in Run(steps).rows
    ensures var s := Run(steps);
      && c in s.ceremonies
      && (s.rows[c].path in s.dir && BlobSha(s.dir[s.rows[c].path]) == s.rows[c].sha <==> !TakenWhilePending(steps, c))
      && (!s.ceremonies[c].pairing ==> !TakenWhilePending(steps, c))
  {
    RunsAreSound(steps);
    hide Run, Taken, TakenWhilePending;
    FileThereUnlessTaken(steps, c);
    ApartTakesOnlyPending(steps, c);
  }

  // ---------- a whole reconciliation ----------

  function Reconciled(rows: map<nat, KeyRow>, dir: map<Name, Blob>): map<Name, Blob> { dir - (dir.Keys - Referenced(rows)) }

  /** The orphans in the order they were moved, each once. */
  ghost predicate MovedInOrder(order: seq<Name>, orphans: set<Name>) {
    (forall i, j | 0 <= i < j < |order| :: order[i] != order[j]) && (forall name :: name in order <==> name in orphans)
  }

  function BlobAt(dir: map<Name, Blob>, name: Name): Blob { if name in dir then dir[name] else [] }

  function BlobsAt(dir: map<Name, Blob>, order: seq<Name>): seq<Blob> {
    seq(|order|, i requires 0 <= i < |order| => BlobAt(dir, order[i]))
  }

  lemma NothingMoved(dir: map<Name, Blob>)
    ensures MovedInOrder([], {}) && BlobsAt(dir, []) == []
  {
  }

  lemma OrderExtends(dir: map<Name, Blob>, order: seq<Name>, gone: set<Name>, name: Name)
    requires MovedInOrder(order, gone) && name !in gone && name in dir
    ensures MovedInOrder(order + [name], gone + {name})
    ensures BlobsAt(dir, order + [name]) == BlobsAt(dir, order) + [dir[name]]
    ensures dir - gone - {name} == dir - (gone + {name})
  {
    assert forall n :: n in order + [name] <==> n in order || n == name;
  }

  lemma StillLeft(orphans: set<Name>, left: set<Name>, gone: set<Name>, name: Name)
    requires left <= orphans && gone == orphans - left && name in left
    ensures name !in gone && left - {name} <= orphans && gone + {name} == orphans - (left - {name}) && |gone + {name}| == |gone| + 1
  {
  }

  /** The directory and the quarantine, reconciled in place. */
  class KeyDirectory {
    var dir: map<Name, Blob>
    var quarantine: seq<Blob>

    /** Moves one file after another; the first that is not regular stops it with the others moved so far. */
    method MoveOrphans(orphans: set<Name>, irregular: set<Name>) returns (done: bool, count: nat, ghost order: seq<Name>, ghost gone: set<Name>)
      requires orphans <= dir.Keys
      modifies this
      ensures done == (orphans !! irregular) && gone <= orphans - irregular && (done ==> gone == orphans)
      ensures MovedInOrder(order, gone) && count == |gone|
      ensures dir == old(dir) - gone && quarantine == old(quarantine) + BlobsAt(old(dir), order)
    {
      hide MovedInOrder, BlobsAt;
      var left := orphans;
      count, order, gone := 0, [], {};
      NothingMoved(dir);
      while left != {}
        invariant left <= orphans && gone == orphans - left && gone !! irregular && count == |gone|
        invariant MovedInOrder(order, gone)
        invariant dir == old(dir) - gone && quarantine == old(quarantine) + BlobsAt(old(dir), order)
      {
        var name :| name in left;
        if name in irregular {
          return false, count, order, gone;
        }
        StillLeft(orphans, left, gone, name);
        OrderExtends(old(dir), order, gone, name);
        MoveAside(name);
        order, gone, count, left := order + [name], gone + {name}, count + 1, left - {name};
      }
      done := true;
    }

    method MoveAside(name: Name)
      requires name in dir
      modifies this
      ensures dir == old(dir) - {name} && quarantine == old(quarantine) + [old(dir)[name]]
    {
      quarantine := quarantine + [dir[name]];
      dir := dir - {name};
    }

    /** Refuses an unfinished recovery publication, rows that disagree with the signed
        ledger and a row without its blob, before anything moves; then moves exactly the
        files no row refers to, unless one of them is not regular: it is refused with
        some of the others moved. */
    method Reconcile(rows: map<nat, KeyRow>, rowsAgree: bool, journal: bool, irregular: set<Name>)
      returns (moved: Result<nat>, ghost order: seq<Name>, ghost gone: set<Name>)
      modifies this
      ensures moved.Ok? == (!journal && rowsAgree && RowsOnDisk(rows, old(dir)) && old(dir).Keys - Referenced(rows) !! irregular)
      ensures dir == old(dir) - gone && MovedInOrder(order, gone) && quarantine == old(quarantine) + BlobsAt(old(dir), order)
      ensures gone <= old(dir).Keys - Referenced(rows) - irregular
      ensures journal || !rowsAgree || !RowsOnDisk(rows, old(dir)) ==> gone == {}
      ensures RowsOnDisk(rows, dir) == RowsOnDisk(rows, old(dir))
      ensures moved.Ok? ==> gone == old(dir).Keys - Referenced(rows) && moved.value == |gone| && dir == Reconciled(rows, old(dir))
    {
      hide RowsOnDisk, MovedInOrder, Referenced, BlobsAt;
      order, gone := [], {};
      NothingMoved(dir);
      if journal || !rowsAgree || !RowsOnDisk(rows, dir) {
        return Rejected, [], {};
      }
      var done, count;
      done, count, order, gone := MoveOrphans(dir.Keys - Referenced(rows), irregular);
      RowsSurviveReconciling(rows, old(dir), gone);
      moved := if done then Ok(count) else Rejected;
    }
  }

  /** A reconciliation never moves a row's file, even one that is refused halfway, so its
      rows are on disk after it exactly when they were before. */
  lemma RowsSurviveReconciling(rows: map<nat, KeyRow>, dir: map<Name, Blob>, gone: set<Name>)
    requires gone !! Referenced(rows)
    ensures RowsOnDisk(rows, dir - gone) <==> RowsOnDisk(rows, dir)
  {
    forall k | k in rows
      ensures rows[k].path in dir - gone <==> rows[k].path in dir
    {
      assert rows[k].path in Referenced(rows);
    }
  }

  /** A reconciliation after any run is accepted if and only if no committed row's file
      was taken; it then leaves exactly the committed rows' files and has nothing left
      to move the next time. */
  lemma ReconciliationCleansUp(steps: seq<Step>)
    ensures var s := Run(steps); var after := Reconciled(s.rows, s.dir);
      && (RowsOnDisk(s.rows, s.dir) <==> forall c | c in s.rows :: !Taken(steps, c))
      && (RowsOnDisk(s.rows, s.dir) ==>
            && RowsOnDisk(s.rows, after) && after.Keys == Referenced(s.rows) == (set k | k in s.rows :: Final(k))
            && Reconciled(s.rows, after) == after)
  {
    RowsOnDiskExactly(steps);
    RunsAreSound(steps);
    hide Run, Taken;
    var s := Run(steps);
    if RowsOnDisk(s.rows, s.dir) {
      RowsGiveNames(s.rows, s.dir);
      hide RowsOnDisk, Sound;
      assert Reconciled(s.rows, s.dir).Keys == Referenced(s.rows);
    }
  }

  lemma RowsGiveNames(rows: map<nat, KeyRow>, dir: map<Name, Blob>)
    requires RowsOnDisk(rows, dir) && forall k | k in rows :: rows[k].path == Final(k)
    ensures Referenced(rows) <= dir.Keys && Referenced(rows) == (set k | k in rows :: Final(k))
    ensures RowsOnDisk(rows, Reconciled(rows, dir))
  {
    assert forall k | k in rows :: Final(k) in dir && Final(k) in Referenced(rows);
  }

  // ---------- two ways to lose a file ----------

  lemma Append(steps: seq<Step>, step: Step) returns (longer: seq<Step>)
    ensures longer == steps + [step] && Run(longer) == Next(Run(steps), step)
  {
    longer := steps + [step];
    assert longer[..|steps|] == steps;
  }

  lemma AppendApart(steps: seq<Step>, step: Step) returns (longer: seq<Step>)
    requires AllApart(steps) && Apart(Run(steps), step)
    ensures AllApart(longer) && Run(longer) == Next(Run(steps), step)
  {
    longer := Append(steps, step);
    hide Run, Apart;
    forall k | 0 <= k < |longer|
      ensures Apart(Run(longer[..k]), longer[k])
    {
      if k < |steps| {
        assert longer[..k] == steps[..k] && longer[k] == steps[k];
      } else {
        assert longer[..k] == steps;
      }
    }
  }

  lemma NextByCeremony(s: State, step: Step)
    requires !step.ReadRows? && !step.MoveOrphan? && !step.EndReconcile?
    ensures Next(s, step) == CeremonyStep(s, step)
  {
    hide CeremonyStep;
  }

  lemma NextByReconcile(s: State, step: Step)
    requires step.ReadRows? || step.MoveOrphan? || step.EndReconcile?
    ensures Next(s, step) == ReconcileStep(s, step)
  {
    hide ReconcileStep;
  }

  /** A published file of ceremony 0 alone in the directory. */
  function OnlyFile(blob: Blob, pairing: bool, phase: Phase, writer: Option<nat>): State {
    State(map[Final(0) := blob], [], map[], map[0 := Ceremony(blob, pairing, phase, phase != Unlinked)], writer, map[])
  }

  /** A reconciliation that overlaps another ceremony can move a blob away between its
      verification and the commit, and leave the committed row without it. */
  lemma OverlapStrandsARow(blob: Blob) returns (steps: seq<Step>)
    ensures 0 in Run(steps).rows && !RowsOnDisk(Run(steps).rows, Run(steps).dir)
  {
    hide Run, Next;
    steps := [];
    RunOfNothing();
    steps := Append(steps, Stage(0, blob, false));
    steps := Append(steps, Begin(0));
    steps := Append(steps, Link(0));
    steps := Append(steps, Unstage(0));
    steps := Append(steps, Confirm(0));
    PublishedAt(blob);
    steps := Append(steps, Reverify(0));
    steps := Append(steps, ReadRows(0));
    steps := Append(steps, MoveOrphan(0, Final(0)));
    steps := Append(steps, Commit(0));
    MovedBeforeCommit(blob);
  }

  /** A staged and linked file is unstaged and confirmed, in either kind of ceremony. */
  lemma UnstagedAlone(blob: Blob, pairing: bool, writer: Option<nat>)
    ensures Next(Next(LinkedFile(blob, pairing, writer), Unstage(0)), Confirm(0)) == OnlyFile(blob, pairing, Published, writer)
  {
    var linked, alone := LinkedFile(blob, pairing, writer), OnlyFile(blob, pairing, Unlinked, writer);
    NextByCeremony(linked, Unstage(0));
    NextByCeremony(alone, Confirm(0));
    hide Next;
    assert linked.dir - {Staged(0)} == alone.dir;
    assert CeremonyStep(linked, Unstage(0)) == alone;
  }

  function LinkedFile(blob: Blob, pairing: bool, writer: Option<nat>): State {
    State(map[Staged(0) := blob, Final(0) := blob], [], map[], map[0 := Ceremony(blob, pairing, Linked, false)], writer, map[])
  }

  lemma StagedAlone(blob: Blob, pairing: bool)
    ensures Next(Start, Stage(0, blob, pairing)) == StagedFile(blob, pairing, Staging, None)
  {
    NextByCeremony(Start, Stage(0, blob, pairing));
    hide Next;
  }

  lemma LinksAlone(blob: Blob, pairing: bool, writer: Option<nat>)
    ensures Next(StagedFile(blob, pairing, if pairing then Staging else InTransaction, writer), Link(0)) == LinkedFile(blob, pairing, writer)
  {
    var staged := StagedFile(blob, pairing, if pairing then Staging else InTransaction, writer);
    NextByCeremony(staged, Link(0));
    hide Next;
    assert staged.dir[Final(0) := blob] == LinkedFile(blob, pairing, writer).dir;
  }

  lemma PublishedAt(blob: Blob)
    ensures Next(Next(Next(Next(Next(Start, Stage(0, blob, false)), Begin(0)), Link(0)), Unstage(0)), Confirm(0)) == OnlyFile(blob, false, Published, Some(0))
  {
    StagedAlone(blob, false);
    LinksAlone(blob, false, Some(0));
    UnstagedAlone(blob, false, Some(0));
    BeginsAlone(blob);
    hide Next, OnlyFile, LinkedFile, StagedFile;
  }

  lemma BeginsAlone(blob: Blob)
    ensures Next(StagedFile(blob, false, Staging, None), Begin(0)) == StagedFile(blob, false, InTransaction, Some(0))
  {
    NextByCeremony(StagedFile(blob, false, Staging, None), Begin(0));
    hide Next;
  }

  /** A staged file of ceremony 0 alone in the directory. */
  function StagedFile(blob: Blob, pairing: bool, phase: Phase, writer: Option<nat>): State {
    State(map[Staged(0) := blob], [], map[], map[0 := Ceremony(blob, pairing, phase, false)], writer, map[])
  }

  /** The same after the reconciliation under way has moved it. */
  function Emptied(blob: Blob, pairing: bool, phase: Phase, writer: Option<nat>): State {
    OnlyFile(blob, pairing, phase, writer).(reconciling := map[0 := {}], dir := map[], quarantine := [blob])
  }

  lemma RowsRead(blob: Blob, pairing: bool, phase: Phase, writer: Option<nat>)
    ensures var s := OnlyFile(blob, pairing, phase, writer); Next(s, ReadRows(0)) == s.(reconciling := map[0 := {}])
  {
    var s := OnlyFile(blob, pairing, phase, writer);
    NextByReconcile(s, ReadRows(0));
    assert Referenced(map[]) == {};
    hide Next;
  }

  lemma OnlyFileMoves(blob: Blob, pairing: bool, phase: Phase, writer: Option<nat>)
    ensures Next(Next(OnlyFile(blob, pairing, phase, writer), ReadRows(0)), MoveOrphan(0, Final(0))) == Emptied(blob, pairing, phase, writer)
  {
    RowsRead(blob, pairing, phase, writer);
    var read := OnlyFile(blob, pairing, phase, writer).(reconciling := map[0 := {}]);
    NextByReconcile(read, MoveOrphan(0, Final(0)));
    hide Next, RowsOnDisk, Referenced;
    assert read.dir - {Final(0)} == map[];
  }

  lemma ReverifiesAlone(blob: Blob)
    ensures Next(OnlyFile(blob, false, Published, Some(0)), Reverify(0)) == OnlyFile(blob, false, Reverified, Some(0))
  {
    NextByCeremony(OnlyFile(blob, false, Published, Some(0)), Reverify(0));
    hide Next;
  }

  /** With its file gone, the row of ceremony 0 is stranded by its commit. */
  lemma Stranded(s: State)
    requires 0 in s.rows && s.rows[0].path == Final(0) && s.dir == map[]
    ensures !RowsOnDisk(s.rows, s.dir)
  {
    assert s.rows[0].path !in s.dir;
  }

  lemma CommitStrands(blob: Blob)
    ensures var s := Next(Emptied(blob, false, Reverified, Some(0)), Commit(0)); 0 in s.rows && !RowsOnDisk(s.rows, s.dir)
  {
    NextByCeremony(Emptied(blob, false, Reverified, Some(0)), Commit(0));
    hide Next, RowsOnDisk;
    Stranded(Next(Emptied(blob, false, Reverified, Some(0)), Commit(0)));
  }

  lemma MovedBeforeCommit(blob: Blob)
    ensures var s := Next(Next(Next(Next(OnlyFile(blob, false, Published, Some(0)), Reverify(0)), ReadRows(0)), MoveOrphan(0, Final(0))), Commit(0));
      0 in s.rows && !RowsOnDisk(s.rows, s.dir)
  {
    hide Next, RowsOnDisk, OnlyFile, Emptied;
    ReverifiesAlone(blob);
    OnlyFileMoves(blob, false, Reverified, Some(0));
    CommitStrands(blob);
  }

  /** A reconciliation that overlaps nothing, between a pairing request and its
      finalization, sees no row, moves the pending blob away, and finalization commits
      the row without looking. */
  lemma PendingPairingStrandsARow(blob: Blob) returns (steps: seq<Step>)
    ensures AllApart(steps) && 0 in Run(steps).rows && !RowsOnDisk(Run(steps).rows, Run(steps).dir)
  {
    hide Run, Next, Apart;
    steps := [];
    RunOfNothing();
    MostStepsAreApart();
    steps := AppendApart(steps, Stage(0, blob, true));
    steps := AppendApart(steps, Link(0));
    steps := AppendApart(steps, Unstage(0));
    steps := AppendApart(steps, Confirm(0));
    steps := AppendApart(steps, Request(0));
    RequestedAt(blob);
    steps := AppendApart(steps, ReadRows(0));
    steps := AppendApart(steps, MoveOrphan(0, Final(0)));
    steps := AppendApart(steps, EndReconcile(0));
    MovedWhilePending(blob);
    steps := AppendApart(steps, Finalize(0));
  }

  lemma MostStepsAreApart()
    ensures AllApart([])
    ensures forall s: State, step: Step | !step.Stage? && !step.Finalize? && !step.ReadRows? :: Apart(s, step)
    ensures forall blob, pairing :: Apart(Start, Stage(0, blob, pairing))
  {
  }

  lemma RequestedAt(blob: Blob)
    ensures Next(Next(Next(Next(Next(Start, Stage(0, blob, true)), Link(0)), Unstage(0)), Confirm(0)), Request(0)) == OnlyFile(blob, true, Pending, None)
    ensures Apart(OnlyFile(blob, true, Pending, None), ReadRows(0))
  {
    StagedAlone(blob, true);
    LinksAlone(blob, true, None);
    UnstagedAlone(blob, true, None);
    NextByCeremony(OnlyFile(blob, true, Published, None), Request(0));
    hide Next, StagedFile, LinkedFile;
    assert CeremonyStep(OnlyFile(blob, true, Published, None), Request(0)) == OnlyFile(blob, true, Pending, None);
  }

  lemma FinalizeStrands(blob: Blob)
    ensures var s := Next(Emptied(blob, true, Pending, None), EndReconcile(0));
      Apart(s, Finalize(0)) && 0 in Next(s, Finalize(0)).rows && !RowsOnDisk(Next(s, Finalize(0)).rows, Next(s, Finalize(0)).dir)
  {
    var s := Emptied(blob, true, Pending, None);
    var ended := s.(reconciling := map[]);
    NextByReconcile(s, EndReconcile(0));
    assert s.reconciling - {0} == map[];
    NextByCeremony(ended, Finalize(0));
    hide Next, RowsOnDisk;
    Stranded(Next(ended, Finalize(0)));
  }

  lemma MovedWhilePending(blob: Blob)
    ensures var s := Next(Next(Next(OnlyFile(blob, true, Pending, None), ReadRows(0)), MoveOrphan(0, Final(0))), EndReconcile(0));
      && Apart(s, Finalize(0))
      && 0 in Next(s, Finalize(0)).rows && !RowsOnDisk(Next(s, Finalize(0)).rows, Next(s, Finalize(0)).dir)
  {
    hide Next, RowsOnDisk, OnlyFile, Emptied, Apart;
    OnlyFileMoves(blob, true, Pending, None);
    FinalizeStrands(blob);
  }

  // ---------- no published key is lost ----------

  /** A final file that a step takes off its name is in quarantine right after it. */
  lemma FinalStep(s: State, step: Step, c: nat)
    requires Final(c) in s.dir
    ensures var t := Next(s, step);
      && s.quarantine <= t.quarantine && |t.quarantine| <= |s.quarantine| + 1
      && (if Final(c) in t.dir then t.dir[Final(c)] == s.dir[Final(c)] else t.quarantine == s.quarantine + [s.dir[Final(c)]])
  {
  }

  lemma QuarantineGrows(s: State, step: Step)
    ensures s.quarantine <= Next(s, step).quarantine
  {
  }

  /** In every run, whatever crashes and overlaps, a published key file is at its name or its bytes are in quarantine. */
  lemma {:induction false} FinalsNeverLost(steps: seq<Step>, i: nat, c: nat)
    requires i <= |steps| && Final(c) in Run(steps[..i]).dir
    ensures var blob := Run(steps[..i]).dir[Final(c)]; var t := Run(steps);
      (Final(c) in t.dir && t.dir[Final(c)] == blob) || blob in t.quarantine
    decreases |steps|
  {
    hide Next;
    if i < |steps| {
      var init := steps[..|steps| - 1];
      assert init[..i] == steps[..i];
      FinalsNeverLost(init, i, c);
      QuarantineGrows(Run(init), steps[|steps| - 1]);
      if Final(c) in Run(init).dir {
        FinalStep(Run(init), steps[|steps| - 1], c);
      }
    } else {
      assert steps[..i] == steps;
    }
  }
}
