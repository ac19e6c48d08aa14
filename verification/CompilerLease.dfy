/** The compiler lock: an exclusive directory with an owner record, and the
    recovery of a stale one, as interleaved steps of many processes. */
module CompilerLease {
  import opened Outcomes

  const STALE_SECONDS: int := 300

  /** The bytes of `owner.json`; the nonce names one compile. */
  datatype Owner = Owner(nonce: nat, pid: nat, heartbeat: int)

  datatype Directory = Directory(inode: nat, owner: Option<Owner>)

  /** Where one compile is. Made to Unlinked lie between its mkdir and its rmdir. */
  datatype Place = Made | Holding | Ending | Releasing | Unlinked | Done | Dead

  datatype Compile = Compile(pid: nat, inode: nat, place: Place)

  /** Where one recovery is, with what it has inspected. */
  datatype Recovery =
    | Seen(nonce: nat)
    | Recorded(nonce: nat, inode: nat, owner: Option<Owner>)
    | Rechecked(nonce: nat, inode: nat, owner: Option<Owner>)
    | Claimed(nonce: nat, inode: nat, owner: Option<Owner>)
    | Restoring
    | RestoreReady
    | Verified(inode: nat, owner: Option<Owner>)
    | Emptied
    | Over

  datatype State = State(
    lock: Option<Directory>, claimed: map<nat, Directory>, compiles: map<nat, Compile>, recoveries: map<nat, Recovery>, nextInode: nat)

  predicate PidAlive(compiles: map<nat, Compile>, pid: nat) {
    exists n :: n in compiles && compiles[n].pid == pid && compiles[n].place != Dead
  }

  /** A same-host owner record is stale when it is old and its process is gone. */
  predicate Stale(compiles: map<nat, Compile>, owner: Owner, now: int) {
    now - owner.heartbeat >= STALE_SECONDS && !PidAlive(compiles, owner.pid)
  }

  /** The directory holds a stale record with this nonce. */
  predicate StaleWith(compiles: map<nat, Compile>, d: Option<Directory>, nonce: nat, now: int) {
    d.Some? && d.value.owner.Some? && d.value.owner.value.nonce == nonce && Stale(compiles, d.value.owner.value, now)
  }

  datatype Step =
    | Mkdir(nonce: nat, pid: nat)
    | WriteOwner(nonce: nat, now: int)
    | Finish(nonce: nat)
    | Unlink(nonce: nat)
    | Rmdir(nonce: nat)
    | Die(nonce: nat)
    | Inspect(r: nat, nonce: nat, now: int)
    | Record(r: nat)
    | Recheck(r: nat, now: int)
    | Claim(r: nat)
    | Verify(r: nat, now: int)
    | TestAbsent(r: nat)
    | Restore(r: nat)
    | Delete(r: nat)
    | RemoveClaimed(r: nat)
    | Abandon(r: nat)

  function At(s: State, nonce: nat): Place { if nonce in s.compiles then s.compiles[nonce].place else Dead }

  function Move(s: State, nonce: nat, place: Place): State
    requires nonce in s.compiles
  {
    s.(compiles := s.compiles[nonce := s.compiles[nonce].(place := place)])
  }

  function Set(s: State, r: nat, recovery: Recovery): State { s.(recoveries := s.recoveries[r := recovery]) }

  function CompileStep(s: State, step: Step): State {
    match step
    case Mkdir(nonce, pid) =>
      if nonce in s.compiles || s.lock.Some? then s
      else s.(lock := Some(Directory(s.nextInode, None)), compiles := s.compiles[nonce := Compile(pid, s.nextInode, Made)],
              nextInode := s.nextInode + 1)
    case WriteOwner(nonce, now) =>
      if At(s, nonce) !in {Made, Holding} then s
      else if s.lock.None? then Move(s, nonce, Ending)
      else Move(s, nonce, Holding).(lock := Some(s.lock.value.(owner := Some(Owner(nonce, s.compiles[nonce].pid, now)))))
    case Finish(nonce) =>
      if At(s, nonce) !in {Made, Holding, Ending} then s
      else if s.lock.Some? && s.lock.value.owner.Some? && s.lock.value.owner.value.nonce == nonce then Move(s, nonce, Releasing)
      else Move(s, nonce, Done)
    case Unlink(nonce) =>
      if At(s, nonce) != Releasing then s
      else if s.lock.None? then Move(s, nonce, Done)
      else Move(s, nonce, Unlinked).(lock := Some(s.lock.value.(owner := None)))
    case Rmdir(nonce) =>
      if At(s, nonce) != Unlinked then s
      else if s.lock.Some? && s.lock.value.owner.None? then Move(s, nonce, Done).(lock := None)
      else Move(s, nonce, Done)
    case Die(nonce) => if nonce in s.compiles then Move(s, nonce, Dead) else s
    case _ => s
  }

  /** Putting a claimed directory back is a test and then a rename, which replaces an empty directory. */
  function RecoveryStep(s: State, step: Step): State {
    match step
    case Inspect(r, nonce, now) =>
      if r !in s.recoveries && StaleWith(s.compiles, s.lock, nonce, now) then Set(s, r, Seen(nonce)) else s
    case Record(r) =>
      if r !in s.recoveries || !s.recoveries[r].Seen? then s
      else if s.lock.None? then Set(s, r, Over)
      else Set(s, r, Recorded(s.recoveries[r].nonce, s.lock.value.inode, s.lock.value.owner))
    case Recheck(r, now) =>
      if r !in s.recoveries || !s.recoveries[r].Recorded? then s
      else
        var seen := s.recoveries[r];
        if StaleWith(s.compiles, s.lock, seen.nonce, now) && s.lock.value.inode == seen.inode
        then Set(s, r, Rechecked(seen.nonce, seen.inode, seen.owner)) else Set(s, r, Over)
    case Claim(r) =>
      if r !in s.recoveries || !s.recoveries[r].Rechecked? then s
      else if s.lock.None? then Set(s, r, Over)
      else
        var seen := s.recoveries[r];
        Set(s, r, Claimed(seen.nonce, seen.inode, seen.owner)).(claimed := s.claimed[r := s.lock.value], lock := None)
    case Verify(r, now) =>
      if r !in s.recoveries || !s.recoveries[r].Claimed? || r !in s.claimed then s
      else
        var seen := s.recoveries[r];
        if StaleWith(s.compiles, Some(s.claimed[r]), seen.nonce, now) && s.claimed[r] == Directory(seen.inode, seen.owner)
        then Set(s, r, Verified(seen.inode, seen.owner)) else Set(s, r, Restoring)
    case TestAbsent(r) =>
      if r !in s.recoveries || s.recoveries[r] != Restoring then s
      else Set(s, r, if s.lock.None? then RestoreReady else Over)
    case Restore(r) =>
      if r !in s.recoveries || s.recoveries[r] != RestoreReady || r !in s.claimed then s
      else if s.lock.None? || s.lock.value.owner.None?
      then Set(s, r, Over).(lock := Some(s.claimed[r]), claimed := s.claimed - {r})
      else Set(s, r, Over)
    case Delete(r) =>
      if r !in s.recoveries || !s.recoveries[r].Verified? || r !in s.claimed then s
      else Set(s, r, Emptied).(claimed := s.claimed[r := s.claimed[r].(owner := None)])
    case RemoveClaimed(r) =>
      if r !in s.recoveries || s.recoveries[r] != Emptied then s
      else Set(s, r, Over).(claimed := s.claimed - {r})
    case Abandon(r) => if r in s.recoveries then Set(s, r, Over) else s
    case _ => s
  }

  predicate OneRecovery(s: State, step: Step) {
    step.Inspect? ==> forall r | r in s.recoveries :: s.recoveries[r] == Over
  }

  function Next(s: State, step: Step): State { CompileStep(RecoveryStep(s, step), step) }

  function Run(steps: seq<Step>): State {
    if steps == [] then State(None, map[], map[], map[], 0) else Next(Run(steps[..|steps| - 1]), steps[|steps| - 1])
  }

  /** A recovery starts only when every earlier one is over. */
  ghost predicate Solo(steps: seq<Step>) {
    forall k | 0 <= k < |steps| :: OneRecovery(Run(steps[..k]), steps[k])
  }

  // ---------- when every live compile owns the lock ----------

  predicate InCritical(place: Place) { place in {Made, Holding, Releasing, Unlinked} }

  /** A compile between its mkdir and its rmdir finds its own directory, with its own record if it has one. */
  predicate OwnsLock(s: State, n: nat)
    requires n in s.compiles
  {
    && s.lock.Some? && s.lock.value.inode == s.compiles[n].inode
    && (s.compiles[n].place in {Made, Unlinked} ==> s.lock.value.owner.None?)
    && (s.compiles[n].place in {Holding, Releasing} ==> s.lock.value.owner.Some? && s.lock.value.owner.value.nonce == n)
  }

  predicate AllOwn(s: State) {
    forall n | n in s.compiles && InCritical(s.compiles[n].place) :: OwnsLock(s, n)
  }

  predicate SomeCritical(compiles: map<nat, Compile>) { exists n :: n in compiles && InCritical(compiles[n].place) }

  /** A rename of a recovery that takes effect on the directory of a live compile:
      it claims a lock other than the dead one it has rechecked, or it puts a
      claimed directory back over an empty one. */
  predicate TakesLive(s: State, step: Step) {
    && SomeCritical(s.compiles) && s.lock.Some?
    && match step
       case Claim(r) => r in s.recoveries && s.recoveries[r].Rechecked?
       case Restore(r) => Replaces(s, step)
       case _ => false
  }

  /** A directory put back replaces an empty one made since its absence was tested. */
  predicate Replaces(s: State, step: Step) {
    step.Restore? && step.r in s.recoveries && s.recoveries[step.r] == RestoreReady && step.r in s.claimed
    && s.lock.Some? && s.lock.value.owner.None?
  }

  predicate OwnerKnown(compiles: map<nat, Compile>, owner: Option<Owner>) {
    owner.Some? ==> owner.value.nonce in compiles && owner.value.pid == compiles[owner.value.nonce].pid
  }

  /** Records name known compiles and no two directories share an inode. */
  predicate Records(s: State) {
    && (s.lock.Some? ==> s.lock.value.inode < s.nextInode && OwnerKnown(s.compiles, s.lock.value.owner))
    && (forall r | r in s.claimed :: s.claimed[r].inode < s.nextInode && OwnerKnown(s.compiles, s.claimed[r].owner))
    && (forall r | r in s.claimed && s.lock.Some? :: s.claimed[r].inode != s.lock.value.inode)
    && (forall q, r | q in s.claimed && r in s.claimed && q != r :: s.claimed[q].inode != s.claimed[r].inode)
    && (forall n | n in s.compiles :: s.compiles[n].inode < s.nextInode)
    && (forall n, m | n in s.compiles && m in s.compiles && n != m :: s.compiles[n].inode != s.compiles[m].inode)
  }

  predicate NoneEnding(compiles: map<nat, Compile>) { forall n | n in compiles :: compiles[n].place != Ending }

  predicate Exclusive(s: State) { Records(s) && AllOwn(s) && NoneEnding(s.compiles) }

  /** Owning the lock excludes every other live compile. */
  lemma HolderIsAlone(s: State, n: nat)
    requires Exclusive(s) && n in s.compiles && InCritical(s.compiles[n].place)
    ensures forall m | m in s.compiles && m != n :: !InCritical(s.compiles[m].place)
  {
    assert OwnsLock(s, n);
    forall m | m in s.compiles && m != n
      ensures !InCritical(s.compiles[m].place)
    {
      assert s.compiles[n].inode != s.compiles[m].inode;
    }
  }

  /** Changing one compile's place and its own directory keeps the records straight. */
  lemma PlaceKeepsRecords(s: State, t: State, n: nat, place: Place)
    requires Records(s) && n in s.compiles
    requires t == s.(lock := t.lock, compiles := s.compiles[n := s.compiles[n].(place := place)])
    requires t.lock.Some? ==> s.lock.Some? && t.lock.value.inode == s.lock.value.inode && OwnerKnown(s.compiles, t.lock.value.owner)
    ensures Records(t)
  {
  }

  /** A step of the compile that holds the lock, or its death. */
  lemma HolderKeepsExclusive(s: State, t: State, n: nat, place: Place)
    requires Exclusive(s) && n in s.compiles && InCritical(s.compiles[n].place)
    requires t == s.(lock := t.lock, compiles := s.compiles[n := s.compiles[n].(place := place)])
    requires t.lock.Some? ==> s.lock.Some? && t.lock.value.inode == s.lock.value.inode && OwnerKnown(s.compiles, t.lock.value.owner)
    requires place != Ending && (InCritical(place) ==> OwnsLock(t, n))
    ensures Exclusive(t)
  {
    HolderIsAlone(s, n);
    PlaceKeepsRecords(s, t, n, place);
    hide Records, OwnsLock;
  }

  lemma DeathKeepsExclusive(s: State, n: nat)
    requires Exclusive(s) && n in s.compiles
    ensures Exclusive(Move(s, n, Dead))
  {
    var t := Move(s, n, Dead);
    PlaceKeepsRecords(s, t, n, Dead);
    hide Records;
    forall m | m in t.compiles && InCritical(t.compiles[m].place)
      ensures OwnsLock(t, m)
    {
      assert OwnsLock(s, m);
    }
  }

  lemma MkdirKeepsExclusive(s: State, n: nat, pid: nat)
    requires Exclusive(s)
    ensures Exclusive(CompileStep(s, Mkdir(n, pid)))
  {
    var t := CompileStep(s, Mkdir(n, pid));
    if t != s {
      assert forall m | m in s.compiles :: !InCritical(s.compiles[m].place);
      assert Records(t);
      hide Records;
    }
  }

  lemma OwnStep(s: State, n: nat, step: Step)
    requires Exclusive(s)
    requires step in {Finish(n), Unlink(n), Rmdir(n)} || (step.WriteOwner? && step.nonce == n)
    ensures Exclusive(CompileStep(s, step))
  {
    var t := CompileStep(s, step);
    if t != s {
      assert InCritical(At(s, n)) && OwnsLock(s, n);
      HolderKeepsExclusive(s, t, n, At(t, n));
    }
  }

  lemma CompileKeepsExclusive(s: State, step: Step)
    requires Exclusive(s)
    ensures Exclusive(CompileStep(s, step))
  {
    hide Exclusive;
    match step
    case Mkdir(n, pid) => MkdirKeepsExclusive(s, n, pid);
    case WriteOwner(n, now) => OwnStep(s, n, step);
    case Finish(n) => OwnStep(s, n, step);
    case Unlink(n) => OwnStep(s, n, step);
    case Rmdir(n) => OwnStep(s, n, step);
    case Die(n) =>
      if n in s.compiles {
        DeathKeepsExclusive(s, n);
      }
    case _ =>
  }

  /** Dropping claimed directories, or their records, keeps the records straight. */
  lemma DroppingKeepsRecords(s: State, t: State)
    requires Records(s) && t == s.(claimed := t.claimed, recoveries := t.recoveries) && t.claimed.Keys <= s.claimed.Keys
    requires forall k | k in t.claimed :: t.claimed[k] == s.claimed[k] || t.claimed[k] == s.claimed[k].(owner := None)
    ensures Records(t)
  {
  }

  lemma ClaimKeepsRecords(s: State, r: nat)
    requires Records(s)
    ensures Records(RecoveryStep(s, Claim(r)))
  {
  }

  lemma RestoreKeepsRecords(s: State, r: nat)
    requires Records(s)
    ensures Records(RecoveryStep(s, Restore(r)))
  {
  }

  /** Recovery steps keep directories distinct and touch no compile. */
  lemma RecoveryKeepsRecords(s: State, step: Step)
    requires Records(s)
    ensures Records(RecoveryStep(s, step)) && RecoveryStep(s, step).compiles == s.compiles
  {
    hide StaleWith, Records;
    match step
    case Claim(r) => ClaimKeepsRecords(s, r);
    case Restore(r) => RestoreKeepsRecords(s, r);
    case _ => DroppingKeepsRecords(s, RecoveryStep(s, step));
  }

  lemma RecoveryKeepsExclusive(s: State, step: Step)
    requires Exclusive(s) && !TakesLive(s, step)
    ensures Exclusive(RecoveryStep(s, step))
  {
    RecoveryKeepsRecords(s, step);
    var t := RecoveryStep(s, step);
    hide Records, StaleWith;
    if t.lock != s.lock {
      forall n | n in s.compiles
        ensures !InCritical(s.compiles[n].place)
      {
        assert InCritical(s.compiles[n].place) ==> OwnsLock(s, n);
      }
    } else {
      forall n | n in t.compiles && InCritical(t.compiles[n].place)
        ensures OwnsLock(t, n)
      {
        assert OwnsLock(s, n);
      }
    }
  }

  /** After a rename that takes a live compile's directory, that compile does not own the lock. */
  lemma TakingBreaksOwnership(s: State, step: Step)
    requires Exclusive(s) && TakesLive(s, step)
    ensures !AllOwn(Next(s, step))
  {
    var n :| n in s.compiles && InCritical(s.compiles[n].place);
    assert OwnsLock(s, n);
    hide StaleWith;
    assert !OwnsLock(Next(s, step), n);
  }

  lemma NextKeepsExclusive(s: State, step: Step)
    requires Exclusive(s) && !TakesLive(s, step)
    ensures Exclusive(Next(s, step))
  {
    RecoveryKeepsExclusive(s, step);
    CompileKeepsExclusive(RecoveryStep(s, step), step);
  }

  ghost predicate NeverTakesLive(steps: seq<Step>) {
    forall k | 0 <= k < |steps| :: !TakesLive(Run(steps[..k]), steps[k])
  }

  lemma StartIsExclusive()
    ensures Exclusive(Run([]))
  {
  }

  lemma {:induction false} UntakenRunsAreExclusive(steps: seq<Step>)
    requires NeverTakesLive(steps)
    ensures Exclusive(Run(steps))
  {
    hide Exclusive, Next, TakesLive;
    if steps == [] {
      StartIsExclusive();
    } else {
      var n := |steps| - 1;
      assert forall k | 0 <= k < n :: steps[..n][..k] == steps[..k];
      UntakenRunsAreExclusive(steps[..n]);
      NextKeepsExclusive(Run(steps[..n]), steps[n]);
    }
  }

  ghost predicate AlwaysAllOwn(steps: seq<Step>) { forall k | 0 <= k <= |steps| :: AllOwn(Run(steps[..k])) }

  /** However many recoveries interleave, every compile between its mkdir and its
      rmdir owns the lock at every moment if and only if no recovery's rename ever
      takes effect on a live compile's directory. */
  lemma OwnershipExactly(steps: seq<Step>)
    ensures AlwaysAllOwn(steps) <==> NeverTakesLive(steps)
  {
    hide Next, TakesLive, AllOwn, Records;
    if NeverTakesLive(steps) {
      forall k | 0 <= k <= |steps|
        ensures AllOwn(Run(steps[..k]))
      {
        NeverTakesPrefix(steps, k);
        UntakenRunsAreExclusive(steps[..k]);
      }
    } else {
      var k := FirstTaking(steps);
      UntakenRunsAreExclusive(steps[..k]);
      TakingBreaksOwnership(Run(steps[..k]), steps[k]);
      assert steps[..k + 1][..k] == steps[..k];
      assert !AllOwn(Run(steps[..k + 1]));
    }
  }

  lemma NeverTakesPrefix(steps: seq<Step>, k: nat)
    requires NeverTakesLive(steps) && k <= |steps|
    ensures NeverTakesLive(steps[..k])
  {
    hide Run, TakesLive;
    assert forall j | 0 <= j < k :: steps[..k][..j] == steps[..j];
  }

  lemma FirstTaking(steps: seq<Step>) returns (k: nat)
    requires !NeverTakesLive(steps)
    ensures k < |steps| && NeverTakesLive(steps[..k]) && TakesLive(Run(steps[..k]), steps[k])
  {
    hide Run, TakesLive;
    k := 0;
    while !TakesLive(Run(steps[..k]), steps[k])
      invariant k < |steps| && forall j | 0 <= j < k :: !TakesLive(Run(steps[..j]), steps[j])
      invariant exists j :: k <= j < |steps| && TakesLive(Run(steps[..j]), steps[j])
      decreases |steps| - k
    {
      k := k + 1;
    }
    assert forall j | 0 <= j < k :: steps[..k][..j] == steps[..j];
  }

  /** Then no two live compiles are ever between their mkdir and their rmdir. */
  lemma NeverTwoHolders(steps: seq<Step>, n: nat)
    requires NeverTakesLive(steps) && n in Run(steps).compiles && InCritical(Run(steps).compiles[n].place)
    ensures OwnsLock(Run(steps), n)
    ensures forall m | m in Run(steps).compiles && m != n :: !InCritical(Run(steps).compiles[m].place)
  {
    UntakenRunsAreExclusive(steps);
    HolderIsAlone(Run(steps), n);
  }

  // ---------- one recovery at a time ----------

  /** The lock carries the record of a dead compile. */
  predicate LockIsDead(s: State, nonce: nat) {
    s.lock.Some? && s.lock.value.owner.Some? && s.lock.value.owner.value.nonce == nonce && At(s, nonce) == Dead
  }

  /** One recovery is under way, and what it has rechecked is still the lock. */
  predicate Alone(s: State) {
    && (forall r | r in s.recoveries && s.recoveries[r].Rechecked? :: LockIsDead(s, s.recoveries[r].nonce))
    && (forall q, r | q in s.recoveries && r in s.recoveries && s.recoveries[q] != Over && s.recoveries[r] != Over :: q == r)
  }

  lemma StaleMeansDead(s: State, d: Option<Directory>, nonce: nat, now: int)
    requires StaleWith(s.compiles, d, nonce, now) && OwnerKnown(s.compiles, d.value.owner)
    ensures At(s, nonce) == Dead
  {
    assert !PidAlive(s.compiles, s.compiles[nonce].pid);
  }

  lemma RecheckKeepsAlone(s: State, r: nat, now: int)
    requires Records(s) && Alone(s)
    ensures Alone(RecoveryStep(s, Recheck(r, now)))
  {
    if r in s.recoveries && s.recoveries[r].Recorded? && StaleWith(s.compiles, s.lock, s.recoveries[r].nonce, now) {
      StaleMeansDead(s, s.lock, s.recoveries[r].nonce, now);
    }
    hide Records, StaleWith;
  }

  lemma RecoveryKeepsAlone(s: State, step: Step)
    requires Records(s) && Alone(s) && OneRecovery(s, step)
    ensures Alone(RecoveryStep(s, step))
  {
    hide Records, StaleWith;
    match step
    case Recheck(r, now) => RecheckKeepsAlone(s, r, now);
    case Inspect(_, _, _) =>
    case _ => hide OneRecovery;
  }

  lemma DeadLockHasNoHolder(s: State, nonce: nat)
    requires Exclusive(s) && LockIsDead(s, nonce)
    ensures !SomeCritical(s.compiles)
  {
    forall n | n in s.compiles
      ensures !InCritical(s.compiles[n].place)
    {
      assert InCritical(s.compiles[n].place) ==> OwnsLock(s, n);
    }
  }

  lemma CompileKeepsAlone(s: State, step: Step)
    requires Exclusive(s) && Alone(s)
    ensures Alone(CompileStep(s, step))
  {
    var t := CompileStep(s, step);
    forall r | r in s.recoveries && s.recoveries[r].Rechecked?
      ensures LockIsDead(t, s.recoveries[r].nonce)
    {
      DeadLockHasNoHolder(s, s.recoveries[r].nonce);
      hide Records, AllOwn;
    }
  }

  /** With one recovery at a time a claim never takes a live compile's directory. */
  lemma AloneNeverClaimsLive(s: State, step: Step)
    requires Exclusive(s) && Alone(s) && !Replaces(s, step)
    ensures !TakesLive(s, step)
  {
    if step.Claim? && step.r in s.recoveries && s.recoveries[step.r].Rechecked? {
      DeadLockHasNoHolder(s, s.recoveries[step.r].nonce);
    }
  }

  /** No directory put back ever replaces another. */
  ghost predicate NeverReplaces(steps: seq<Step>) {
    forall k | 0 <= k < |steps| :: !Replaces(Run(steps[..k]), steps[k])
  }

  lemma NextKeepsAlone(s: State, step: Step)
    requires Exclusive(s) && Alone(s) && OneRecovery(s, step) && !Replaces(s, step)
    ensures !TakesLive(s, step) && Exclusive(Next(s, step)) && Alone(Next(s, step))
  {
    AloneNeverClaimsLive(s, step);
    RecoveryKeepsExclusive(s, step);
    RecoveryKeepsAlone(s, step);
    CompileKeepsExclusive(RecoveryStep(s, step), step);
    CompileKeepsAlone(RecoveryStep(s, step), step);
  }

  /** One recovery at a time is enough, unless its rename back lands on a directory
      made after it tested that there was none. */
  lemma {:induction false} OneRecoveryNeverTakesLive(steps: seq<Step>)
    requires Solo(steps) && NeverReplaces(steps)
    ensures NeverTakesLive(steps) && Exclusive(Run(steps)) && Alone(Run(steps))
  {
    hide Exclusive, Alone, Next, TakesLive, Replaces, OneRecovery;
    if steps == [] {
      StartIsExclusive();
      assert Alone(Run([])) by { StartIsAlone(); }
    } else {
      var n := |steps| - 1;
      assert forall k | 0 <= k < n :: steps[..n][..k] == steps[..k];
      OneRecoveryNeverTakesLive(steps[..n]);
      NextKeepsAlone(Run(steps[..n]), steps[n]);
      forall k | 0 <= k < |steps|
        ensures !TakesLive(Run(steps[..k]), steps[k])
      {
        if k < n {
          assert steps[..n][k] == steps[k];
        }
      }
    }
  }

  lemma StartIsAlone()
    ensures Alone(Run([]))
  {
  }

  // ---------- any number of recoveries ----------

  /** What a recovery that has verified its claim holds. */
  predicate VerifiedOk(s: State, r: nat)
    requires r in s.recoveries
  {
    s.recoveries[r].Verified? ==>
      && r in s.claimed && s.claimed[r] == Directory(s.recoveries[r].inode, s.recoveries[r].owner)
      && s.recoveries[r].owner.Some? && At(s, s.recoveries[r].owner.value.nonce) == Dead
  }

  ghost predicate ClaimsOk(s: State) {
    && (s.lock.Some? ==> OwnerKnown(s.compiles, s.lock.value.owner))
    && (forall r | r in s.claimed :: OwnerKnown(s.compiles, s.claimed[r].owner))
    && (forall r | r in s.recoveries :: VerifiedOk(s, r))
  }

  lemma RecoveryKeepsClaims(s: State, step: Step)
    requires ClaimsOk(s)
    ensures ClaimsOk(RecoveryStep(s, step))
  {
    if step.Verify? && step.r in s.claimed && step.r in s.recoveries && s.recoveries[step.r].Claimed? {
      var d := Some(s.claimed[step.r]);
      if StaleWith(s.compiles, d, s.recoveries[step.r].nonce, step.now) {
        StaleMeansDead(s, d, s.recoveries[step.r].nonce, step.now);
      }
    }
    hide StaleWith;
  }

  lemma CompileKeepsClaims(s: State, step: Step)
    requires ClaimsOk(s)
    ensures ClaimsOk(CompileStep(s, step))
  {
  }

  lemma {:induction false} ClaimsAlwaysOk(steps: seq<Step>)
    ensures ClaimsOk(Run(steps))
  {
    hide ClaimsOk;
    if steps == [] {
      assert ClaimsOk(Run([])) by { NoClaims(); }
    } else {
      var before := Run(steps[..|steps| - 1]);
      ClaimsAlwaysOk(steps[..|steps| - 1]);
      RecoveryKeepsClaims(before, steps[|steps| - 1]);
      CompileKeepsClaims(RecoveryStep(before, steps[|steps| - 1]), steps[|steps| - 1]);
    }
  }

  lemma NoClaims()
    ensures ClaimsOk(Run([]))
  {
  }

  /** However many recoveries interleave, an owner record is deleted only from a
      claimed directory whose inode and record are those inspected, and whose
      compile is dead. */
  lemma DeletesOnlyWhatWasInspected(steps: seq<Step>, r: nat)
    requires var s := Run(steps); RecoveryStep(s, Delete(r)) != s
    ensures var s := Run(steps);
      && r in s.recoveries && s.recoveries[r].Verified? && r in s.claimed
      && s.claimed[r] == Directory(s.recoveries[r].inode, s.recoveries[r].owner)
      && s.claimed[r].owner.Some? && At(s, s.claimed[r].owner.value.nonce) == Dead
  {
    ClaimsAlwaysOk(steps);
  }

  /** The step at position k verified this record for r: it was at least five minutes old and
      no live process had its process id. */
  ghost predicate StaleWhenVerified(steps: seq<Step>, r: nat, owner: Option<Owner>, k: nat) {
    && k < |steps| && steps[k].Verify? && steps[k].r == r && owner.Some?
    && steps[k].now - owner.value.heartbeat >= 300
    && forall n | n in Run(steps[..k]).compiles && Run(steps[..k]).compiles[n].pid == owner.value.pid :: Run(steps[..k]).compiles[n].place == Dead
  }

  /** One step keeps what a recovery has verified, or has just verified it. */
  lemma VerifiedStep(s: State, step: Step, r: nat)
    requires r in Next(s, step).recoveries && Next(s, step).recoveries[r].Verified?
    ensures var v := Next(s, step).recoveries[r];
      || (r in s.recoveries && s.recoveries[r] == v)
      || (&& step.Verify? && step.r == r && v.owner.Some? && step.now - v.owner.value.heartbeat >= 300
          && forall n | n in s.compiles && s.compiles[n].pid == v.owner.value.pid :: s.compiles[n].place == Dead)
  {
  }

  lemma {:induction false} VerifiedTraced(steps: seq<Step>, r: nat) returns (k: nat)
    requires r in Run(steps).recoveries && Run(steps).recoveries[r].Verified?
    ensures StaleWhenVerified(steps, r, Run(steps).recoveries[r].owner, k)
  {
    hide Next;
    var n := |steps| - 1;
    var init := steps[..n];
    VerifiedStep(Run(init), steps[n], r);
    if r in Run(init).recoveries && Run(init).recoveries[r] == Run(steps).recoveries[r] {
      k := VerifiedTraced(init, r);
      assert init[..k] == steps[..k];
    } else {
      k := n;
    }
  }

  /** In every run an owner record is deleted only after a step has found it, in the claimed directory, at
      least five minutes old with no live process under its process id. */
  lemma DeletesOnlyStale(steps: seq<Step>, r: nat) returns (k: nat)
    requires RecoveryStep(Run(steps), Delete(r)) != Run(steps)
    ensures r in Run(steps).claimed && StaleWhenVerified(steps, r, Run(steps).claimed[r].owner, k)
  {
    hide Run, StaleWhenVerified, RecoveryStep;
    DeletesOnlyWhatWasInspected(steps, r);
    k := VerifiedTraced(steps, r);
  }

  /** A recovery begins exactly on a record with the confirmed nonce, that old and that dead. */
  lemma InspectsExactly(s: State, r: nat, nonce: nat, now: int)
    ensures RecoveryStep(s, Inspect(r, nonce, now)) != s <==>
      && r !in s.recoveries && s.lock.Some? && s.lock.value.owner.Some? && s.lock.value.owner.value.nonce == nonce
      && now - s.lock.value.owner.value.heartbeat >= 300
      && forall n | n in s.compiles && s.compiles[n].pid == s.lock.value.owner.value.pid :: s.compiles[n].place == Dead
  {
    assert r !in s.recoveries ==> Set(s, r, Seen(nonce)) != s by {
      assert r in Set(s, r, Seen(nonce)).recoveries;
    }
  }

  /** The lock directory goes only by the rmdir of a compile that has unlinked its record and finds the directory
      empty, or by the rename of a recovery that has rechecked it; and its record changes only by a running compile that writes
      its own, or one that unlinks after it has found its own, or by a directory put back. */
  lemma LockChangesOnlyBy(s: State, step: Step)
    requires s.lock.Some?
    ensures var t := Next(s, step);
      && (t.lock.None? ==>
            || (step.Rmdir? && At(s, step.nonce) == Unlinked && s.lock.value.owner == None)
            || (step.Claim? && step.r in s.recoveries && s.recoveries[step.r].Rechecked?))
      && (t.lock.Some? && t.lock != s.lock ==>
            || (step.WriteOwner? && At(s, step.nonce) in {Made, Holding} && t.lock.value.inode == s.lock.value.inode
                && t.lock.value.owner.Some? && t.lock.value.owner.value.nonce == step.nonce && t.lock.value.owner.value.heartbeat == step.now)
            || (step.Unlink? && At(s, step.nonce) == Releasing && t.lock.value == Directory(s.lock.value.inode, None))
            || (step.Restore? && step.r in s.recoveries && s.recoveries[step.r] == RestoreReady && s.lock.value.owner == None))
      && forall n | At(t, n) == Releasing && At(s, n) != Releasing ::
           step == Finish(n) && s.lock.value.owner.Some? && s.lock.value.owner.value.nonce == n
  {
  }

  // ---------- two recoveries at once ----------

  lemma Extend(steps: seq<Step>, more: seq<Step>)
    ensures |more| == 0 ==> Run(steps + more) == Run(steps)
    ensures |more| > 0 ==> Run(steps + more) == Next(Run(steps + more[..|more| - 1]), more[|more| - 1])
  {
    if more == [] {
      assert steps + more == steps;
    } else {
      assert (steps + more)[..|steps + more| - 1] == steps + more[..|more| - 1];
    }
  }

  lemma RunThree(steps: seq<Step>, a: Step, b: Step, c: Step)
    ensures Run(steps + [a, b, c]) == Next(Next(Next(Run(steps), a), b), c)
  {
    hide Next;
    Extend(steps, [a, b, c]);
    assert [a, b, c][..2] == [a, b];
    Extend(steps, [a, b]);
    assert [a, b][..1] == [a];
    Extend(steps, [a]);
    assert [a][..0] == [];
    Extend(steps, []);
  }

  const DeadOwner: Owner := Owner(1, 10, 0)
  const NewOwner: Owner := Owner(2, 20, STALE_SECONDS)
  const DeadCompile: Compile := Compile(10, 0, Dead)
  const Checked: Recovery := Rechecked(1, 0, Some(DeadOwner))

  /** Two recoveries that both pass their recheck before either claims: the second
      claim takes the lock of a live compile, and a third compile starts beside it. */
  lemma TwoRecoveriesBreakExclusion() returns (steps: seq<Step>)
    ensures {2, 3} <= Run(steps).compiles.Keys
    ensures Run(steps).compiles[2].place == Holding && Run(steps).compiles[3].place == Holding
  {
    hide Run;
    var now := STALE_SECONDS;
    var start := State(None, map[], map[], map[], 0);
    assert Run([]) == start by { RunOfNothing(); }
    RunThree([], Mkdir(1, 10), WriteOwner(1, 0), Die(1));
    var s1 := [] + [Mkdir(1, 10), WriteOwner(1, 0), Die(1)];
    var stale := StaleState;
    assert Run(s1) == stale by { StaleLockLeft(); }
    RunThree(s1, Inspect(0, 1, now), Record(0), Recheck(0, now));
    var s2 := s1 + [Inspect(0, 1, now), Record(0), Recheck(0, now)];
    InspectionPasses(stale, 0);
    RunThree(s2, Inspect(1, 1, now), Record(1), Recheck(1, now));
    var s3 := s2 + [Inspect(1, 1, now), Record(1), Recheck(1, now)];
    InspectionPasses(stale.(recoveries := map[0 := Checked]), 1);
    RunThree(s3, Claim(0), Mkdir(2, 20), WriteOwner(2, now));
    var s4 := s3 + [Claim(0), Mkdir(2, 20), WriteOwner(2, now)];
    RunThree(s4, Claim(1), Mkdir(3, 30), WriteOwner(3, now));
    steps := s4 + [Claim(1), Mkdir(3, 30), WriteOwner(3, now)];
    BothClaim(stale.(recoveries := map[0 := Checked][1 := Checked]));
  }

  lemma RunOfNothing()
    ensures Run([]) == State(None, map[], map[], map[], 0)
  {
  }

  lemma StaleLockLeft()
    ensures Next(Next(Next(State(None, map[], map[], map[], 0), Mkdir(1, 10)), WriteOwner(1, 0)), Die(1))
         == State(Some(Directory(0, Some(DeadOwner))), map[], map[1 := DeadCompile], map[], 1)
  {
  }

  lemma InspectionPasses(s: State, r: nat)
    requires s.lock == Some(Directory(0, Some(DeadOwner))) && s.compiles == map[1 := DeadCompile] && r !in s.recoveries
    ensures Next(Next(Next(s, Inspect(r, 1, STALE_SECONDS)), Record(r)), Recheck(r, STALE_SECONDS))
         == s.(recoveries := s.recoveries[r := Checked])
  {
    assert StaleWith(s.compiles, s.lock, 1, STALE_SECONDS);
  }

  lemma BothClaim(s: State)
    requires s.lock == Some(Directory(0, Some(DeadOwner))) && s.compiles == map[1 := DeadCompile] && s.nextInode == 1
    requires {0, 1} <= s.recoveries.Keys && s.recoveries[0] == Checked && s.recoveries[1] == Checked
    ensures var mid := Next(Next(Next(s, Claim(0)), Mkdir(2, 20)), WriteOwner(2, STALE_SECONDS));
      var t := Next(Next(Next(mid, Claim(1)), Mkdir(3, 30)), WriteOwner(3, STALE_SECONDS));
      {2, 3} <= t.compiles.Keys && t.compiles[2].place == Holding && t.compiles[3].place == Holding
  {
    var mid := Next(Next(Next(s, Claim(0)), Mkdir(2, 20)), WriteOwner(2, STALE_SECONDS));
    assert mid.lock == Some(Directory(1, Some(NewOwner))) && 2 in mid.compiles && mid.compiles[2].place == Holding && 3 !in mid.compiles;
    assert 1 in mid.recoveries && mid.recoveries[1] == Checked;
  }

  // ---------- one recovery at a time is not enough ----------

  lemma SoloThree(steps: seq<Step>, a: Step, b: Step, c: Step)
    requires Solo(steps) && OneRecovery(Run(steps), a) && !b.Inspect? && !c.Inspect?
    ensures Solo(steps + [a, b, c])
  {
    hide Run;
    var all := steps + [a, b, c];
    forall k | 0 <= k < |all|
      ensures OneRecovery(Run(all[..k]), all[k])
    {
      if k < |steps| {
        assert all[..k] == steps[..k] && all[k] == steps[k];
      } else if k == |steps| {
        assert all[..k] == steps;
      }
    }
  }

  /** A recovery alone at every moment tests that the lock is absent, a compile makes
      it, and the rename back replaces it: the next recovery, again alone, takes the
      lock of that live compile and a third compile starts beside it. */
  lemma OneRecoveryCanBreakExclusion() returns (steps: seq<Step>)
    ensures Solo(steps) && {2, 3} <= Run(steps).compiles.Keys
    ensures Run(steps).compiles[2].place == Holding && Run(steps).compiles[3].place == Holding
  {
    hide Run, Solo, Next, OneRecovery;
    var now := STALE_SECONDS;
    assert Run([]) == State(None, map[], map[], map[], 0) && Solo([]) by {
      RunOfNothing();
      SoloNothing();
    }
    steps := RunSolo([], Mkdir(1, 10), WriteOwner(1, 0), Die(1));
    StaleLockLeft();
    InspectsAlone(now);
    steps := RunSolo(steps, Inspect(0, 1, now), Record(0), Recheck(0, now));
    InspectionPasses(StaleState, 0);
    assert StaleState.recoveries[0 := Checked] == map[0 := Checked];
    steps := RunSolo(steps, Claim(0), Verify(0, 0), TestAbsent(0));
    ClockStepsBack();
    steps := RunSolo(steps, Mkdir(2, 20), Restore(0), Abandon(0));
    RestoreReplaces();
    steps := RunSolo(steps, Inspect(1, 1, now), Record(1), Recheck(1, now));
    SecondInspection();
    steps := RunSolo(steps, WriteOwner(2, now), Claim(1), Mkdir(3, 30));
    steps := RunSolo(steps, WriteOwner(3, now), WriteOwner(2, now), WriteOwner(3, now));
    BothHeartbeat();
  }

  /** A dead compile's lock; the same claimed and about to be put back; the same put
      back over the directory a new compile has just made. */
  const StaleState: State := State(Some(Directory(0, Some(DeadOwner))), map[], map[1 := DeadCompile], map[], 1)
  const ReadyState: State :=
    State(None, map[0 := Directory(0, Some(DeadOwner))], map[1 := DeadCompile], map[0 := RestoreReady], 1)
  const BackState: State :=
    State(Some(Directory(0, Some(DeadOwner))), map[], map[1 := DeadCompile, 2 := Compile(20, 1, Made)], map[0 := Over], 2)

  lemma InspectsAlone(now: int)
    ensures forall s: State, step: Step | !step.Inspect? :: OneRecovery(s, step)
    ensures OneRecovery(StaleState, Inspect(0, 1, now)) && OneRecovery(BackState, Inspect(1, 1, now))
  {
  }

  lemma RunSolo(steps: seq<Step>, a: Step, b: Step, c: Step) returns (longer: seq<Step>)
    requires Solo(steps) && OneRecovery(Run(steps), a) && !b.Inspect? && !c.Inspect?
    ensures Solo(longer) && Run(longer) == Next(Next(Next(Run(steps), a), b), c)
  {
    longer := steps + [a, b, c];
    RunThree(steps, a, b, c);
    SoloThree(steps, a, b, c);
  }

  lemma SoloNothing()
    ensures Solo([])
  {
  }

  lemma ClockStepsBack()
    ensures Next(Next(Next(StaleState.(recoveries := map[0 := Checked]), Claim(0)), Verify(0, 0)), TestAbsent(0)) == ReadyState
  {
  }

  lemma RestoreReplaces()
    ensures Next(Next(Next(ReadyState, Mkdir(2, 20)), Restore(0)), Abandon(0)) == BackState
  {
  }

  lemma SecondInspection()
    ensures Next(Next(Next(BackState, Inspect(1, 1, STALE_SECONDS)), Record(1)), Recheck(1, STALE_SECONDS))
         == BackState.(recoveries := map[0 := Over, 1 := Checked])
  {
    assert StaleWith(BackState.compiles, BackState.lock, 1, STALE_SECONDS);
  }

  lemma BothHeartbeat()
    ensures var s := BackState.(recoveries := map[0 := Over, 1 := Checked]);
      var mid := Next(Next(Next(s, WriteOwner(2, STALE_SECONDS)), Claim(1)), Mkdir(3, 30));
      var t := Next(Next(Next(mid, WriteOwner(3, STALE_SECONDS)), WriteOwner(2, STALE_SECONDS)), WriteOwner(3, STALE_SECONDS));
      {2, 3} <= t.compiles.Keys && t.compiles[2].place == Holding && t.compiles[3].place == Holding
  {
    var s := BackState.(recoveries := map[0 := Over, 1 := Checked]);
    var mid := Next(Next(Next(s, WriteOwner(2, STALE_SECONDS)), Claim(1)), Mkdir(3, 30));
    assert mid.lock == Some(Directory(2, None)) && 2 in mid.compiles && 3 in mid.compiles;
    assert mid.compiles[2].place == Holding && mid.compiles[3].place == Made;
  }
}
