/** The inductive invariant of the store protocol and its preservation by every step. */
module JobInvariant {
  import opened JobState
  import opened JobProtocol

  // ---------------------------------------------------------------- the invariant

  /** The owner map and the positions of the processes agree. */
  ghost predicate LocksOk(w: World) {
    && (forall pid, l :: pid in w.procs && l in Held(w.procs[pid]) ==> l in w.owner && w.owner[l] == pid)
    && (forall l :: l in w.owner ==> w.owner[l] in w.procs && l in Held(w.procs[w.owner[l]]))
  }

  /** The file is a state the writers build, and the log starts with exactly the captured bytes. */
  ghost predicate FileOk(p: Policy, d: Dir) {
    match d.file
    case None => !d.intent
    case Some(s) =>
      && Committed(p, s, d.clock)
      && s.job.captured <= |d.log|
      && d.log[..s.job.captured] == Truncated(d.fed, s.job.outputLimit)
  }

  ghost predicate OpOk(d: Dir, op: Mutation) {
    op.CommitWait? && d.file.Some? ==> ChunkFits(d.file.value, op.chunk, op.updatedAt, d.clock)
  }

  ghost predicate OutcomeFits(d: Dir, o: Outcome) {
    OutcomeInRange(o) && (d.file.Some? ==> Supervised(d.file.value, o))
  }

  ghost predicate StatusIs(d: Dir, running: bool) {
    d.file.Some? && (d.file.value.job.status == Running) == running
  }

  /** The last position of a publication, where the status is already terminal. */
  predicate Published(pc: PC) {
    pc.ClearIntent? || (pc.Closing? && RunnerLock in pc.held)
  }

  ghost predicate LeaseOk(d: Dir, pid: Pid, proc: Proc) {
    proc.lease ==>
      && pid == RUNNER && d.file.Some?
      && (Published(proc.pc) || StatusIs(d, true))
      && (OwnsIntent(proc.pc) || !d.intent)
      && (RunnerLock in PcHolds(proc.pc) ==> proc.pc.Closing?)
  }

  ghost predicate FlagsOk(d: Dir, proc: Proc) {
    d.file.Some? ==>
      && (proc.sawCancel ==> d.file.value.cancellation.Some?)
      && (proc.sawLimit ==> d.file.value.job.captured == d.file.value.job.outputLimit)
  }

  ghost predicate WritingOk(p: Policy, d: Dir, data: seq<Byte>, accepted: nat, written: nat) {
    && StatusIs(d, true)
    && var job := d.file.value.job;
    && 0 <= job.captured && 0 <= job.outputLimit
    && AcceptedBytes(p, job.captured, |data|, job.outputLimit) == Some(accepted)
    && 0 < accepted <= |data| && written <= accepted
    && job.captured + written <= |d.log|
    && d.log[job.captured..job.captured + written] == data[..written]
  }

  ghost predicate SnapOk(p: Policy, d: Dir, start: nat, snap: PersistedState) {
    && Committed(p, snap, d.clock) && start <= snap.job.captured
    && (d.file.Some? ==> Extends(snap, d.file.value))
    && snap.job.captured <= |Truncated(d.fed, snap.job.outputLimit)|
  }

  ghost predicate PcOk(p: Policy, d: Dir, proc: Proc) {
    match proc.pc
    case AwaitNoIntent(op) => OpOk(d, op)
    case AwaitState(op) => OpOk(d, op)
    case CheckIntent(op) => OpOk(d, op)
    case Mutate(op) => OpOk(d, op)
    case Writing(data, accepted, written) => WritingOk(p, d, data, accepted, written)
    case TryRunner(_, running, seen) => d.file.Some? ==> seen == d.intent && StatusIs(d, running) && (running || seen)
    case Took(running, seen) => d.file.Some? ==> seen == d.intent && StatusIs(d, running) && (running || seen)
    case AwaitStateActive(_) => !d.intent
    case CancelActive(_) => !d.intent
    case AwaitStateLost => d.intent && d.file.Some?
    case WriteLost => d.intent && d.file.Some?
    case ClearLost => d.intent && StatusIs(d, false)
    case AwaitRecoveryPublish(o) => proc.lease && OutcomeFits(d, o)
    case CreateIntent(o) => proc.lease && OutcomeFits(d, o)
    case AwaitStatePublish(o) => proc.lease && d.intent && OutcomeFits(d, o)
    case WriteTerminal(o) => proc.lease && d.intent && OutcomeFits(d, o)
    case ClearIntent => proc.lease && d.intent && StatusIs(d, false)
    case ReadLog(_, start, snap) => SnapOk(p, d, start, snap)
    case Respond(_, start, snap, bytes) =>
      SnapOk(p, d, start, snap) && bytes == Truncated(d.fed, snap.job.outputLimit)[start..snap.job.captured]
    case _ => true
  }

  ghost predicate ProcOk(p: Policy, w: World, pid: Pid) {
    && pid in w.procs
    && LeaseOk(w.dir, pid, w.procs[pid]) && FlagsOk(w.dir, w.procs[pid]) && PcOk(p, w.dir, w.procs[pid])
  }

  ghost predicate ProcsOk(p: Policy, w: World) {
    forall pid :: pid in w.procs ==> ProcOk(p, w, pid)
  }

  /** The intent lets one more write through: that of a process already past its check. */
  ghost predicate LateOk(w: World) {
    w.dir.intent ==> w.late <= 1 && forall pid :: pid in w.procs && PastCheck(w.procs[pid].pc) ==> w.late == 0
  }

  /** Unless it was left behind, the intent belongs to the holder of the recovery lock. */
  ghost predicate CleanOk(w: World) {
    w.orphaned <==> w.dir.intent && !IntentOwned(w)
  }

  ghost predicate IntentOwned(w: World) {
    && RecoveryLock in w.owner && w.owner[RecoveryLock] in w.procs
    && OwnsIntent(w.procs[w.owner[RecoveryLock]].pc)
  }

  ghost predicate Inv(p: Policy, w: World) {
    LocksOk(w) && FileOk(p, w.dir) && ProcsOk(p, w) && LateOk(w) && CleanOk(w)
  }

  lemma InitialInv(p: Policy, r: StartRequest, started: int, clock: int)
    requires AdmissibleStart(p, r)
    ensures Inv(p, Initial(r, started, clock))
  {
    var w := Initial(r, started, clock);
    assert w.procs.Keys == {RUNNER} && w.owner.Keys == {RunnerLock};
    InitialCommitted(p, r, started, clock);
    assert w.dir.log[..0] == Truncated(w.dir.fed, r.outputLimit);
  }

  // ---------------------------------------------------------------- frames: what a step of `pid` leaves to the others

  /** Only the mover's own record and the lock owners changed. */
  ghost predicate OnlyMoved(w: World, v: World, pid: Pid) {
    && v.procs.Keys == w.procs.Keys
    && forall q :: q in w.procs && q != pid ==> v.procs[q] == w.procs[q]
  }

  lemma LocksMove(w: World, v: World, pid: Pid)
    requires LocksOk(w) && pid in w.procs && OnlyMoved(w, v, pid)
    requires v.owner == w.owner && Held(v.procs[pid]) == Held(w.procs[pid])
    ensures LocksOk(v)
  {}

  lemma LocksAcquire(w: World, v: World, pid: Pid, lock: Lock)
    requires LocksOk(w) && pid in w.procs && OnlyMoved(w, v, pid)
    requires lock !in w.owner && v.owner == w.owner[lock := pid]
    requires Held(v.procs[pid]) == Held(w.procs[pid]) + {lock}
    ensures LocksOk(v)
  {
    hide PcHolds;
    forall q, l | q in v.procs && l in Held(v.procs[q]) ensures l in v.owner && v.owner[l] == q {
      if l != lock || q != pid { assert l in Held(w.procs[q]); }
    }
    forall l | l in v.owner ensures v.owner[l] in v.procs && l in Held(v.procs[v.owner[l]]) {
      if l != lock { assert l in w.owner && v.owner[l] == w.owner[l]; }
    }
  }

  lemma LocksRelease(w: World, v: World, pid: Pid, lock: Lock)
    requires LocksOk(w) && pid in w.procs && OnlyMoved(w, v, pid)
    requires lock in Held(w.procs[pid]) && v.owner == w.owner - {lock}
    requires Held(v.procs[pid]) == Held(w.procs[pid]) - {lock}
    ensures LocksOk(v)
  {
    hide PcHolds;
    forall q, l | q in v.procs && l in Held(v.procs[q]) ensures l in v.owner && v.owner[l] == q {
      assert l in Held(w.procs[q]);
      assert l in w.owner && w.owner[l] == q;
    }
    forall l | l in v.owner ensures v.owner[l] in v.procs && l in Held(v.procs[v.owner[l]]) {
      assert l in w.owner && l != lock && v.owner[l] == w.owner[l];
    }
  }

  lemma LateMove(w: World, v: World, pid: Pid)
    requires LateOk(w) && pid in w.procs && OnlyMoved(w, v, pid) && v.dir.intent == w.dir.intent && v.late == w.late
    requires v.dir.intent && PastCheck(v.procs[pid].pc) ==> w.late == 0
    ensures LateOk(v)
  {}

  /** A step that changes nothing shared but locks. */
  lemma LocalStep(p: Policy, w: World, v: World, pid: Pid)
    requires Inv(p, w) && pid in w.procs && OnlyMoved(w, v, pid) && v.dir == w.dir && v.late == w.late
    requires LocksOk(v) && ProcOk(p, v, pid) && CleanOk(v)
    requires v.dir.intent && PastCheck(v.procs[pid].pc) ==> w.late == 0
    ensures Inv(p, v)
  {
    forall q | q in v.procs ensures ProcOk(p, v, q) {
      if q != pid { assert ProcOk(p, w, q); }
    }
    LateMove(w, v, pid);
  }

  /** A step that neither starts nor ends an ownership keeps the intent's owner. */
  lemma CleanKept(w: World, v: World, pid: Pid)
    requires LocksOk(w) && LocksOk(v) && CleanOk(w) && pid in w.procs && OnlyMoved(w, v, pid)
    requires v.dir.intent == w.dir.intent && v.orphaned == w.orphaned
    requires OwnsIntent(w.procs[pid].pc) == OwnsIntent(v.procs[pid].pc)
    requires (RecoveryLock in w.owner && w.owner[RecoveryLock] != pid) || (RecoveryLock in v.owner && v.owner[RecoveryLock] != pid)
      ==> RecoveryLock in v.owner && RecoveryLock in w.owner && v.owner[RecoveryLock] == w.owner[RecoveryLock]
    ensures CleanOk(v)
  {
    hide PcHolds, OwnsIntent;
    var l := RecoveryLock;
    if OwnsIntent(w.procs[pid].pc) {
      OwnerHolds(w.procs[pid].pc);
      OwnerHolds(v.procs[pid].pc);
      assert l in Held(w.procs[pid]) && l in Held(v.procs[pid]);
    } else if l in w.owner && w.owner[l] != pid {
      assert v.procs[v.owner[l]] == w.procs[w.owner[l]];
    } else {
      assert !IntentOwned(w) && !IntentOwned(v);
    }
  }

  lemma OwnerHolds(pc: PC)
    requires OwnsIntent(pc)
    ensures RecoveryLock in PcHolds(pc)
  {}

  // ---------------------------------------------------------------- steps that touch nothing shared but a lock

  /** A step of `pid` that keeps its locks and every shared field. */
  lemma MoveLocal(p: Policy, w: World, v: World, pid: Pid)
    requires Inv(p, w) && pid in w.procs && OnlyMoved(w, v, pid)
    requires v.dir == w.dir && v.owner == w.owner && v.late == w.late && v.orphaned == w.orphaned
    requires Held(v.procs[pid]) == Held(w.procs[pid]) && ProcOk(p, v, pid)
    requires OwnsIntent(w.procs[pid].pc) == OwnsIntent(v.procs[pid].pc)
    requires w.dir.intent && PastCheck(v.procs[pid].pc) ==> w.late == 0
    ensures Inv(p, v)
  {
    LocksMove(w, v, pid);
    CleanKept(w, v, pid);
    LocalStep(p, w, v, pid);
  }

  lemma AcquireLocal(p: Policy, w: World, v: World, pid: Pid, lock: Lock)
    requires Inv(p, w) && pid in w.procs && OnlyMoved(w, v, pid) && lock !in w.owner
    requires v.dir == w.dir && v.owner == w.owner[lock := pid]
    requires v.late == w.late && v.orphaned == w.orphaned
    requires Held(v.procs[pid]) == Held(w.procs[pid]) + {lock} && ProcOk(p, v, pid)
    requires OwnsIntent(w.procs[pid].pc) == OwnsIntent(v.procs[pid].pc)
    requires !PastCheck(v.procs[pid].pc)
    ensures Inv(p, v)
  {
    LocksAcquire(w, v, pid, lock);
    CleanKept(w, v, pid);
    LocalStep(p, w, v, pid);
  }

  lemma ReleaseLocal(p: Policy, w: World, v: World, pid: Pid, lock: Lock)
    requires Inv(p, w) && pid in w.procs && OnlyMoved(w, v, pid)
    requires v.dir == w.dir && v.owner == w.owner - {lock}
    requires v.late == w.late && v.orphaned == w.orphaned
    requires lock in Held(w.procs[pid]) && Held(v.procs[pid]) == Held(w.procs[pid]) - {lock} && ProcOk(p, v, pid)
    requires !OwnsIntent(w.procs[pid].pc) && !OwnsIntent(v.procs[pid].pc) && !PastCheck(v.procs[pid].pc)
    ensures Inv(p, v)
  {
    LocksRelease(w, v, pid, lock);
    CleanKept(w, v, pid);
    LocalStep(p, w, v, pid);
  }

  /** The holder of the recovery lock takes the intent over, or leaves it behind. */
  lemma OwnerChanged(p: Policy, w: World, v: World, pid: Pid)
    requires Inv(p, w) && pid in w.procs && OnlyMoved(w, v, pid)
    requires v.dir == w.dir && v.owner == w.owner && v.late == w.late && w.dir.intent
    requires Held(v.procs[pid]) == Held(w.procs[pid]) && ProcOk(p, v, pid) && RecoveryLock in Held(w.procs[pid])
    requires v.orphaned == !OwnsIntent(v.procs[pid].pc) && !PastCheck(v.procs[pid].pc)
    ensures Inv(p, v)
  {
    hide PcHolds;
    HeldOwned(p, w, pid);
    LocksMove(w, v, pid);
    LocalStep(p, w, v, pid);
  }

  lemma OneProc(p: Policy, w: World, pid: Pid)
    requires Inv(p, w) && pid in w.procs
    ensures ProcOk(p, w, pid) && (w.dir.file.None? ==> !w.dir.intent)
    ensures w.procs[pid].lease ==> RunnerLock in w.owner
    ensures w.orphaned ==> w.dir.intent && !OwnsIntent(w.procs[pid].pc)
  {
    assert w.procs[pid].lease ==> RunnerLock in Held(w.procs[pid]);
    if OwnsIntent(w.procs[pid].pc) {
      OwnerHolds(w.procs[pid].pc);
      assert RecoveryLock in Held(w.procs[pid]);
    }
  }

  lemma MoveStep(p: Policy, w: World, pid: Pid, pc: PC)
    requires Inv(p, w) && pid in w.procs
    requires PcHolds(pc) == PcHolds(w.procs[pid].pc)
    requires OwnsIntent(w.procs[pid].pc) == OwnsIntent(pc) && (Published(w.procs[pid].pc) ==> Published(pc))
    requires PcOk(p, w.dir, w.procs[pid].(pc := pc))
    requires w.dir.intent && PastCheck(pc) ==> w.late == 0
    ensures Inv(p, Goto(w, pid, pc))
  {
    hide Inv, WritingOk, SnapOk, OutcomeFits, OpOk;
    OneProc(p, w, pid);
    MoveLocal(p, w, Goto(w, pid, pc), pid);
  }

  lemma AcquireStep(p: Policy, w: World, pid: Pid, lock: Lock, pc: PC)
    requires Inv(p, w) && pid in w.procs && lock !in w.owner
    requires PcHolds(pc) == PcHolds(w.procs[pid].pc) + {lock}
    requires OwnsIntent(w.procs[pid].pc) == OwnsIntent(pc) && (Published(w.procs[pid].pc) ==> Published(pc))
    requires PcOk(p, w.dir, w.procs[pid].(pc := pc)) && !PastCheck(pc)
    requires lock == RecoveryLock ==> !OwnsIntent(w.procs[pid].pc)
    ensures Inv(p, Acquire(w, pid, lock, pc))
  {
    hide Inv, WritingOk, SnapOk, OutcomeFits, OpOk;
    OneProc(p, w, pid);
    AcquireLocal(p, w, Acquire(w, pid, lock, pc), pid, lock);
  }

  /** The positions whose next step takes a lock, if it is free. */
  predicate LockPc(pc: PC) {
    pc.AwaitState? || pc.AwaitStateActive? || pc.AwaitStateLost? || pc.AwaitStateErase? ||
    pc.AwaitRecoveryPublish? || pc.AwaitStatePublish?
  }

  function AfterLock(pc: PC): PC
    requires LockPc(pc)
  {
    match pc
    case AwaitState(op) => CheckIntent(op)
    case AwaitStateActive(actor) => CancelActive(actor)
    case AwaitStateLost => WriteLost
    case AwaitStateErase(actor) => Erase(actor)
    case AwaitRecoveryPublish(o) => CreateIntent(o)
    case AwaitStatePublish(o) => WriteTerminal(o)
  }

  lemma LockAdvance(p: Policy, w: World, pid: Pid)
    requires Inv(p, w) && pid in w.procs && LockPc(w.procs[pid].pc) && AdvanceStep(p, w, pid).Some?
    ensures Inv(p, AdvanceStep(p, w, pid).value)
  {
    hide Inv, WritingOk, SnapOk, OutcomeFits, OpOk, MutateStep, CommitAppend, TookStep, EraseStep, WriteThen, ObserveStep, TryRunnerStep;
    OneProc(p, w, pid);
    var pc := w.procs[pid].pc;
    AcquireStep(p, w, pid, if pc.AwaitRecoveryPublish? then RecoveryLock else StateLock, AfterLock(pc));
  }

  lemma WaitAdvance(p: Policy, w: World, pid: Pid)
    requires Inv(p, w) && pid in w.procs && AdvanceStep(p, w, pid).Some?
    requires w.procs[pid].pc.AwaitNoIntent? || w.procs[pid].pc.AwaitRecovery? || w.procs[pid].pc.TryErase?
    ensures Inv(p, AdvanceStep(p, w, pid).value)
  {
    hide Inv, WritingOk, SnapOk, OutcomeFits, OpOk, MutateStep, CommitAppend, TookStep, EraseStep, WriteThen, ObserveStep, TryRunnerStep;
    OneProc(p, w, pid);
    match w.procs[pid].pc
    case AwaitNoIntent(op) => MoveStep(p, w, pid, if w.dir.file.None? then Idle else AwaitState(op));
    case AwaitRecovery(cancel) =>
      if w.dir.file.None? { MoveStep(p, w, pid, Idle); }
      else { AcquireStep(p, w, pid, RecoveryLock, ReadState(cancel)); }
    case TryErase(actor) =>
      if RunnerLock in w.owner { MoveStep(p, w, pid, Idle); }
      else { AcquireStep(p, w, pid, RunnerLock, AwaitStateErase(actor)); }
  }

  lemma ReadStateAdvance(p: Policy, w: World, pid: Pid)
    requires Inv(p, w) && pid in w.procs && w.procs[pid].pc.ReadState?
    ensures Inv(p, AdvanceStep(p, w, pid).value)
  {
    hide Inv, WritingOk, SnapOk, OutcomeFits, OpOk, MutateStep, CommitAppend, TookStep, EraseStep, WriteThen, ObserveStep;
    OneProc(p, w, pid);
    var file := w.dir.file;
    if file.None? || (file.value.job.status != Running && !w.dir.intent) {
      MoveStep(p, w, pid, Closing({RecoveryLock}));
    } else {
      MoveStep(p, w, pid, TryRunner(w.procs[pid].pc.cancel, file.value.job.status == Running, w.dir.intent));
    }
  }

  lemma TryRunnerAdvance(p: Policy, w: World, pid: Pid)
    requires Inv(p, w) && pid in w.procs && w.procs[pid].pc.TryRunner?
    ensures Inv(p, AdvanceStep(p, w, pid).value)
  {
    hide Inv, WritingOk, SnapOk, OutcomeFits, OpOk, MutateStep, CommitAppend, TookStep, EraseStep, WriteThen, ObserveStep;
    OneProc(p, w, pid);
    var pc := w.procs[pid].pc;
    if RunnerLock !in w.owner { AcquireStep(p, w, pid, RunnerLock, Took(pc.running, pc.seen)); }
    else if pc.cancel.Some? && !pc.seen { MoveStep(p, w, pid, AwaitStateActive(pc.cancel.value)); }
    else { MoveStep(p, w, pid, Closing({RecoveryLock})); }
  }

  /** The check under `state.lock`: go on past it, or give the lock back and wait again. */
  lemma CheckIntentAdvance(p: Policy, w: World, pid: Pid)
    requires Inv(p, w) && pid in w.procs && w.procs[pid].pc.CheckIntent?
    ensures Inv(p, AdvanceStep(p, w, pid).value)
  {
    hide Inv, WritingOk, SnapOk, OutcomeFits, OpOk, MutateStep, CommitAppend, TookStep, EraseStep, WriteThen, ObserveStep, TryRunnerStep;
    OneProc(p, w, pid);
    var op := w.procs[pid].pc.op;
    if w.dir.intent {
      var v := AdvanceStep(p, w, pid).value;
      assert Held(v.procs[pid]) == Held(w.procs[pid]) - {StateLock};
      ReleaseLocal(p, w, v, pid, StateLock);
    } else {
      MoveStep(p, w, pid, Mutate(op));
    }
  }

  lemma ReleaseAdvance(p: Policy, w: World, pid: Pid, lock: Lock)
    requires Inv(p, w) && pid in w.procs && ReleaseStep(w, pid, lock).Some?
    ensures Inv(p, ReleaseStep(w, pid, lock).value)
  {
    hide Inv, WritingOk, SnapOk, OutcomeFits, OpOk;
    OneProc(p, w, pid);
    var v := ReleaseStep(w, pid, lock).value;
    assert Held(v.procs[pid]) == Held(w.procs[pid]) - {lock};
    ReleaseLocal(p, w, v, pid, lock);
  }

  lemma GiveUpAdvance(p: Policy, w: World, pid: Pid)
    requires Inv(p, w) && pid in w.procs && GiveUpStep(w, pid).Some?
    ensures Inv(p, GiveUpStep(w, pid).value)
  {
    hide Inv, WritingOk, SnapOk, OutcomeFits, OpOk, LeaseOk, FlagsOk;
    var pc := w.procs[pid].pc;
    if pc.AwaitStateActive? { MoveStep(p, w, pid, Closing({RecoveryLock})); }
    else if pc.AwaitStateErase? { MoveStep(p, w, pid, Closing({RunnerLock})); }
    else if pc.AwaitStateLost? { LostGivesUp(p, w, pid); }
    else if pc.WriteLost? || pc.WriteTerminal? { PublicationFails(p, w, pid); }
    else if pc.Mutate? || pc.Writing? { MoveStep(p, w, pid, Closing({StateLock})); }
    else if pc.CancelActive? { MoveStep(p, w, pid, Closing({StateLock, RecoveryLock})); }
    else { MoveStep(p, w, pid, Idle); }
  }

  /** The outcome could not be written: the marker goes all the same, the job still runs. */
  lemma PublicationFails(p: Policy, w: World, pid: Pid)
    requires Inv(p, w) && pid in w.procs && (w.procs[pid].pc.WriteLost? || w.procs[pid].pc.WriteTerminal?)
    ensures Inv(p, GiveUpStep(w, pid).value)
  {
    hide Inv, WritingOk, SnapOk, OutcomeFits, OpOk;
    OneProc(p, w, pid);
    IntentDone(p, w, GiveUpStep(w, pid).value, pid);
  }

  /** The reconciler that runs past its deadline leaves its intent behind. */
  lemma LostGivesUp(p: Policy, w: World, pid: Pid)
    requires Inv(p, w) && pid in w.procs && w.procs[pid].pc.AwaitStateLost?
    ensures Inv(p, Goto(w.(orphaned := true), pid, Closing({RunnerLock, RecoveryLock})))
  {
    hide Inv, WritingOk, SnapOk, OutcomeFits, OpOk;
    OneProc(p, w, pid);
    OwnerChanged(p, w, Goto(w.(orphaned := true), pid, Closing({RunnerLock, RecoveryLock})), pid);
  }

  /** The log prefix a snapshot names is the accepted output, whatever was written since. */
  lemma LogPrefix(p: Policy, w: World, start: nat, snap: PersistedState)
    requires FileOk(p, w.dir) && SnapOk(p, w.dir, start, snap) && w.dir.file.Some?
    ensures snap.job.captured <= |w.dir.log|
    ensures w.dir.log[start..snap.job.captured] == Truncated(w.dir.fed, snap.job.outputLimit)[start..snap.job.captured]
  {
    var captured := w.dir.file.value.job.captured;
    assert snap.job.captured <= captured && w.dir.file.value.job.outputLimit == snap.job.outputLimit;
    assert w.dir.log[..captured] == Truncated(w.dir.fed, snap.job.outputLimit);
    SliceOfPrefix(w.dir.log, captured, start, snap.job.captured);
  }

  lemma SliceOfPrefix(s: seq<Byte>, n: nat, i: nat, j: nat)
    requires i <= j <= n <= |s|
    ensures s[i..j] == s[..n][i..j]
  {}

  lemma ReadLogAdvance(p: Policy, w: World, pid: Pid, session: SessionId, start: nat, snap: PersistedState)
    requires Inv(p, w) && pid in w.procs && w.procs[pid].pc == ReadLog(session, start, snap)
    ensures Inv(p, ObserveStep(w, pid))
  {
    hide LocksOk, ProcsOk, LateOk, CleanOk, Committed, Extends;
    OneProc(p, w, pid);
    if w.dir.file.Some? && start <= snap.job.captured <= |w.dir.log| {
      LogPrefix(p, w, start, snap);
      MoveStep(p, w, pid, Respond(session, start, snap, w.dir.log[start..snap.job.captured]));
    } else {
      MoveStep(p, w, pid, Idle);
    }
  }

  lemma RespondAdvance(p: Policy, w: World, pid: Pid, session: SessionId, start: nat, snap: PersistedState)
    requires Inv(p, w) && pid in w.procs
    requires w.procs[pid].pc.Respond? && w.procs[pid].pc.session == session
    requires w.procs[pid].pc.start == start && w.procs[pid].pc.snap == snap
    ensures Inv(p, ObserveStep(w, pid))
  {
    hide LocksOk, ProcsOk, LateOk, CleanOk, FileOk;
    OneProc(p, w, pid);
    var op := CommitWait(session, Chunk(start, snap.job.captured, snap.job.captured, snap.job.status != Running),
                         WaitStamp(snap, w.dir.clock));
    MoveStep(p, w, pid, AwaitNoIntent(op));
  }

  lemma ObserveAdvance(p: Policy, w: World, pid: Pid)
    requires Inv(p, w) && pid in w.procs && (w.procs[pid].pc.ReadLog? || w.procs[pid].pc.Respond?)
    ensures Inv(p, ObserveStep(w, pid))
  {
    match w.procs[pid].pc
    case ReadLog(session, start, snap) => ReadLogAdvance(p, w, pid, session, start, snap);
    case Respond(session, start, snap, _) => RespondAdvance(p, w, pid, session, start, snap);
  }

  lemma StartAdvance(p: Policy, w: World, pid: Pid, a: Action)
    requires Inv(p, w) && pid in w.procs && StartStep(w, pid, a).Some?
    ensures Inv(p, StartStep(w, pid, a).value)
  {
    hide Inv, WritingOk, SnapOk, ChunkFits, Committed, Extends, ResolveStart, LeaseOk, FlagsOk, OutcomeBacked;
    match a
    case StartAppend(data) => MoveStep(p, w, pid, AwaitNoIntent(Append(data)));
    case StartPublish(o) => StartPublishAdvance(p, w, pid, o);
    case StartCancel(actor) => MoveStep(p, w, pid, AwaitNoIntent(Cancel(actor)));
    case StartReconcile(cancel) => MoveStep(p, w, pid, AwaitRecovery(cancel));
    case StartProbe => AcquireStep(p, w, pid, RunnerLock, Closing({RunnerLock}));
    case StartErase(actor) => MoveStep(p, w, pid, TryErase(actor));
    case Poll => PollAdvance(p, w, pid);
    case StartWait(session, explicit) => StartWaitAdvance(p, w, pid, session, explicit);
    case _ =>
  }

  lemma StartPublishAdvance(p: Policy, w: World, pid: Pid, o: Outcome)
    requires Inv(p, w) && pid in w.procs && w.procs[pid].pc.Idle? && w.procs[pid].lease && OutcomeBacked(w.procs[pid], o)
    ensures Inv(p, Goto(w, pid, AwaitRecoveryPublish(o)))
  {
    hide Inv, WritingOk, SnapOk;
    OneProc(p, w, pid);
    MoveStep(p, w, pid, AwaitRecoveryPublish(o));
  }

  lemma PollAdvance(p: Policy, w: World, pid: Pid)
    requires Inv(p, w) && pid in w.procs && StartStep(w, pid, Poll).Some?
    ensures Inv(p, StartStep(w, pid, Poll).value)
  {
    hide Inv, WritingOk, SnapOk, OpOk, OutcomeInRange;
    OneProc(p, w, pid);
    MoveLocal(p, w, StartStep(w, pid, Poll).value, pid);
  }

  lemma ExtendsRefl(s: PersistedState)
    ensures Extends(s, s)
  {}

  lemma InvFile(p: Policy, w: World)
    requires Inv(p, w)
    ensures FileOk(p, w.dir)
  {}

  lemma StartWaitAdvance(p: Policy, w: World, pid: Pid, session: SessionId, explicit: Option<int>)
    requires Inv(p, w) && pid in w.procs && StartStep(w, pid, StartWait(session, explicit)).Some?
    ensures Inv(p, StartStep(w, pid, StartWait(session, explicit)).value)
  {
    hide Inv, Committed, Extends, LeaseOk, FlagsOk, WritingOk, OpOk, OutcomeFits, ResolveStart;
    if w.dir.file.Some? {
      InvFile(p, w);
      var snap := w.dir.file.value;
      var start := ResolveStart(snap, session, explicit);
      if 0 <= start <= snap.job.captured {
        ExtendsRefl(snap);
        assert |w.dir.log[..snap.job.captured]| == snap.job.captured;
        MoveStep(p, w, pid, ReadLog(session, start, snap));
      }
    }
  }

  // ---------------------------------------------------------------- state writes

  /** A write by the holder of `state.lock`: the file moves on, accepted output may grow, and only the
      holder of the recovery and runner locks may end the job. */
  ghost predicate WriteFrame(p: Policy, w: World, d: Dir, pid: Pid) {
    && w.dir.file.Some? && d.file.Some?
    && Extends(w.dir.file.value, d.file.value) && Committed(p, d.file.value, d.clock)
    && d.log == w.dir.log && d.intent == w.dir.intent && d.clock == w.dir.clock && w.dir.fed <= d.fed
    && StateLock in w.owner && w.owner[StateLock] == pid
    && (d.file.value.job.status == w.dir.file.value.job.status
        || (RecoveryLock in w.owner && w.owner[RecoveryLock] == pid && RunnerLock in w.owner && w.owner[RunnerLock] == pid))
  }

  lemma SnapKept(p: Policy, w: World, d: Dir, pid: Pid, start: nat, snap: PersistedState)
    requires WriteFrame(p, w, d, pid) && SnapOk(p, w.dir, start, snap)
    ensures SnapOk(p, d, start, snap)
    ensures Truncated(d.fed, snap.job.outputLimit)[start..snap.job.captured]
         == Truncated(w.dir.fed, snap.job.outputLimit)[start..snap.job.captured]
  {
    ExtendsTransitive(snap, w.dir.file.value, d.file.value);
  }

  lemma OpKept(p: Policy, w: World, d: Dir, pid: Pid, op: Mutation)
    requires WriteFrame(p, w, d, pid) && OpOk(w.dir, op)
    ensures OpOk(d, op)
  {}

  /** At the limit the capture count cannot move; a cancellation stays. */
  lemma FlagsKept(p: Policy, w: World, d: Dir, pid: Pid, proc: Proc, o: Outcome)
    requires WriteFrame(p, w, d, pid)
    ensures FlagsOk(w.dir, proc) ==> FlagsOk(d, proc)
    ensures OutcomeFits(w.dir, o) ==> OutcomeFits(d, o)
  {}

  lemma OtherAfterWrite(p: Policy, w: World, d: Dir, pid: Pid, q: Pid)
    requires LocksOk(w) && q in w.procs && q != pid && ProcOk(p, w, q) && WriteFrame(p, w, d, pid)
    ensures LeaseOk(d, q, w.procs[q]) && FlagsOk(d, w.procs[q]) && PcOk(p, d, w.procs[q])
  {
    var proc := w.procs[q];
    HeldElsewhere(w, pid, q);
    FlagsKept(p, w, d, pid, proc, Outcome(Normal, ShellWait(None, None)));
    OtherPcAfterWrite(p, w, d, pid, q);
  }

  /** A lock of `pid` is in nobody else's hands. */
  lemma HeldElsewhere(w: World, pid: Pid, q: Pid)
    requires LocksOk(w) && q in w.procs && q != pid
    ensures forall l :: l in w.owner && w.owner[l] == pid ==> l !in Held(w.procs[q])
  {}

  lemma OtherPcAfterWrite(p: Policy, w: World, d: Dir, pid: Pid, q: Pid)
    requires LocksOk(w) && q in w.procs && q != pid && ProcOk(p, w, q) && WriteFrame(p, w, d, pid)
    ensures PcOk(p, d, w.procs[q])
  {
    hide LocksOk, Committed, Extends, SnapOk, OutcomeFits, OpOk, WritingOk;
    var proc := w.procs[q];
    HeldElsewhere(w, pid, q);
    match proc.pc
    case AwaitNoIntent(op) => OpKept(p, w, d, pid, op);
    case AwaitState(op) => OpKept(p, w, d, pid, op);
    case CheckIntent(op) => OpKept(p, w, d, pid, op);
    case Mutate(op) => OpKept(p, w, d, pid, op);
    case AwaitRecoveryPublish(o) => FlagsKept(p, w, d, pid, proc, o);
    case CreateIntent(o) => FlagsKept(p, w, d, pid, proc, o);
    case AwaitStatePublish(o) => FlagsKept(p, w, d, pid, proc, o);
    case WriteTerminal(o) => FlagsKept(p, w, d, pid, proc, o);
    case ReadLog(_, start, snap) => SnapKept(p, w, d, pid, start, snap);
    case Respond(_, start, snap, _) => SnapKept(p, w, d, pid, start, snap);
    case _ =>
  }

  /** Every write a process attempts from a reachable world passes the field guard and the validator. */
  lemma CandidateAccepted(p: Policy, w: World, pid: Pid)
    requires Inv(p, w) && pid in w.procs && Candidate(p, w, pid).Some?
    ensures w.dir.file.Some? && StateLock in w.owner && w.owner[StateLock] == pid
    ensures var cur, next := w.dir.file.value, Candidate(p, w, pid).value;
      && Valid(p, next) && PublishGuard(cur, next, |w.dir.log|)
      && Committed(p, next, w.dir.clock) && Extends(cur, next)
      && (next.job.status == cur.job.status <==> !w.procs[pid].pc.WriteLost? && !w.procs[pid].pc.WriteTerminal?)
      && (w.procs[pid].pc.WriteTerminal? || w.procs[pid].pc.WriteLost? ==> cur.job.status == Running)
  {
    hide LocksOk, ProcsOk, LateOk, CleanOk, Committed, Extends;
    OneProc(p, w, pid);
    HeldOwned(p, w, pid);
    var s := w.dir.file.value;
    match w.procs[pid].pc
    case Mutate(Cancel(actor)) => CancelAccepted(p, s, w.dir.clock, actor, |w.dir.log|);
    case CancelActive(actor) => CancelAccepted(p, s, w.dir.clock, actor, |w.dir.log|);
    case Mutate(CommitWait(session, chunk, updatedAt)) =>
      WaitCommitCommitted(p, s, session, chunk, updatedAt, w.dir.clock, |w.dir.log|);
      CommittedValid(p, WaitCommitted(p, s, session, chunk, updatedAt).next, w.dir.clock);
    case WriteLost => RunnerLostCommitted(p, s, w.dir.clock, |w.dir.log|);
    case WriteTerminal(o) =>
      TerminalAccepted(p, w, pid, o);
    case _ =>
  }

  lemma TerminalAccepted(p: Policy, w: World, pid: Pid, o: Outcome)
    requires FileOk(p, w.dir) && w.dir.file.Some? && w.dir.file.value.job.status == Running && OutcomeFits(w.dir, o)
    ensures var cur, next := w.dir.file.value, TerminalState(w.dir.file.value, o, w.dir.clock);
      && next.Some? && Valid(p, next.value) && PublishGuard(cur, next.value, |w.dir.log|)
      && Committed(p, next.value, w.dir.clock) && Extends(cur, next.value)
      && next.value.job.status != Running
  {
    TerminalCommitted(p, w.dir.file.value, o, w.dir.clock, |w.dir.log|);
  }

  lemma HeldOwned(p: Policy, w: World, pid: Pid)
    requires Inv(p, w) && pid in w.procs
    ensures forall l :: l in Held(w.procs[pid]) ==> l in w.owner && w.owner[l] == pid
  {}

  lemma CancelAccepted(p: Policy, s: PersistedState, now: int, actor: SessionId, logSize: nat)
    requires Committed(p, s, now) && s.job.captured <= logSize && CancelCandidate(s, now, actor).Some?
    ensures var next := CancelCandidate(s, now, actor).value;
      && Valid(p, next) && PublishGuard(s, next, logSize) && Committed(p, next, now) && Extends(s, next)
      && next.job.status == s.job.status
  {
    CancelCommitted(p, s, now, logSize);
  }

  // ---------------------------------------------------------------- steps that write

  /** The common tail of every writing step: the others keep their invariants, the writer moved. */
  lemma WriteDone(p: Policy, w: World, v: World, pid: Pid)
    requires Inv(p, w) && pid in w.procs && OnlyMoved(w, v, pid) && WriteFrame(p, w, v.dir, pid)
    requires v.owner == w.owner && v.orphaned == w.orphaned
    requires Held(v.procs[pid]) == Held(w.procs[pid])
    requires OwnsIntent(w.procs[pid].pc) == OwnsIntent(v.procs[pid].pc)
    requires FileOk(p, v.dir) && ProcOk(p, v, pid)
    requires !PastCheck(v.procs[pid].pc)
    requires v.late == w.late || (v.late == w.late + 1 && (w.dir.intent ==> PastCheck(w.procs[pid].pc)))
    ensures Inv(p, v)
  {
    hide Committed, Extends, LeaseOk, FlagsOk, PcOk;
    LocksMove(w, v, pid);
    CleanKept(w, v, pid);
    forall q | q in v.procs ensures ProcOk(p, v, q) {
      if q != pid { assert ProcOk(p, w, q); OtherAfterWrite(p, w, v.dir, pid, q); }
    }
    forall q | q in v.procs && PastCheck(v.procs[q].pc) ensures v.dir.intent ==> v.late == 0 {
      if q != pid { HeldElsewhere(w, pid, q); }
    }
  }

  /** Where each writing position goes. */
  function AfterWrite(pc: PC): PC {
    if pc.WriteLost? then ClearLost else if pc.WriteTerminal? then ClearIntent
    else if pc.CancelActive? then Closing({StateLock, RecoveryLock}) else Closing({StateLock})
  }

  lemma AfterWriteHolds(pc: PC)
    requires WritePc(pc)
    ensures PcHolds(AfterWrite(pc)) == PcHolds(pc) && !PastCheck(AfterWrite(pc))
    ensures OwnsIntent(AfterWrite(pc)) == OwnsIntent(pc)
  {}

  predicate WritePc(pc: PC) {
    pc.WriteLost? || pc.WriteTerminal? || pc.CancelActive? || (pc.Mutate? && !pc.op.Append?)
  }

  /** Writing positions other than the terminal ones may find nothing to write. */
  lemma NothingToWrite(p: Policy, w: World, pid: Pid)
    requires Inv(p, w) && pid in w.procs && WritePc(w.procs[pid].pc) && Candidate(p, w, pid).None?
    ensures Inv(p, Goto(w, pid, AfterWrite(w.procs[pid].pc)))
  {
    hide Inv, Committed, Extends, WritingOk, SnapOk, OpOk;
    OneProc(p, w, pid);
    var pc := w.procs[pid].pc;
    if pc.WriteTerminal? {
      FilePart(p, w);
      TerminalAccepted(p, w, pid, pc.outcome);
    } else {
      MoveStep(p, w, pid, AfterWrite(pc));
    }
  }

  lemma FilePart(p: Policy, w: World)
    requires Inv(p, w)
    ensures FileOk(p, w.dir)
  {}

  lemma WriteAdvance(p: Policy, w: World, pid: Pid)
    requires Inv(p, w) && pid in w.procs && WritePc(w.procs[pid].pc)
    ensures Inv(p, WriteThen(p, w, pid, AfterWrite(w.procs[pid].pc)))
  {
    hide Inv, Committed, Extends, WritingOk, SnapOk, OpOk, Candidate;
    if Candidate(p, w, pid).None? {
      NothingToWrite(p, w, pid);
    } else {
      SomethingToWrite(p, w, pid);
    }
  }

  /** The directory a successful write leaves. */
  lemma WriteDir(p: Policy, w: World, pid: Pid)
    requires Inv(p, w) && pid in w.procs && WritePc(w.procs[pid].pc) && Candidate(p, w, pid).Some?
    ensures var d := w.dir.(file := Candidate(p, w, pid));
      Publish(p, w, Candidate(p, w, pid).value).dir == d && FileOk(p, d) && WriteFrame(p, w, d, pid)
  {
    hide Inv, Committed, Extends, Valid, LeaseOk, PcOk, FlagsOk, Candidate;
    CandidateAccepted(p, w, pid);
    if w.procs[pid].pc.WriteLost? || w.procs[pid].pc.WriteTerminal? { WriteLocks(p, w, pid); }
    FilePart(p, w);
  }

  lemma WriterOk(p: Policy, w: World, pid: Pid, d: Dir)
    requires Inv(p, w) && pid in w.procs && WritePc(w.procs[pid].pc) && Candidate(p, w, pid).Some?
    requires d == w.dir.(file := Candidate(p, w, pid)) && WriteFrame(p, w, d, pid)
    ensures var proc := w.procs[pid].(pc := AfterWrite(w.procs[pid].pc));
      LeaseOk(d, pid, proc) && FlagsOk(d, proc) && PcOk(p, d, proc)
    ensures Candidate(p, w, pid).value.job.status == Running && w.dir.intent ==> PastCheck(w.procs[pid].pc)
  {
    hide Inv, Committed, Extends, Valid, WritingOk, SnapOk, OpOk, Candidate, PublishGuard;
    OneProc(p, w, pid);
    CandidateAccepted(p, w, pid);
    FlagsKept(p, w, d, pid, w.procs[pid], Outcome(Normal, ShellWait(None, None)));
  }

  lemma SomethingToWrite(p: Policy, w: World, pid: Pid)
    requires Inv(p, w) && pid in w.procs && WritePc(w.procs[pid].pc) && Candidate(p, w, pid).Some?
    ensures Inv(p, WriteThen(p, w, pid, AfterWrite(w.procs[pid].pc)))
  {
    hide Inv, WriteFrame, FileOk, LeaseOk, FlagsOk, PcOk, Valid, Candidate, PublishGuard, PcHolds, AfterWrite, OwnsIntent, PastCheck;
    AfterWriteHolds(w.procs[pid].pc);
    WriteDir(p, w, pid);
    var v := WriteThen(p, w, pid, AfterWrite(w.procs[pid].pc));
    WriterOk(p, w, pid, v.dir);
    OneProc(p, w, pid);
    WriteDone(p, w, v, pid);
  }

  /** Ending the job takes the recovery and the runner lock. */
  lemma WriteLocks(p: Policy, w: World, pid: Pid)
    requires Inv(p, w) && pid in w.procs && (w.procs[pid].pc.WriteLost? || w.procs[pid].pc.WriteTerminal?)
    ensures RecoveryLock in w.owner && w.owner[RecoveryLock] == pid
    ensures RunnerLock in w.owner && w.owner[RunnerLock] == pid
  {
    OneProc(p, w, pid);
    HeldOwned(p, w, pid);
  }

  // ---------------------------------------------------------------- appends

  /** Appending to the history keeps the accepted output a prefix, cut at the limit. */
  lemma TruncatedGrows(fed: seq<Byte>, data: seq<Byte>, limit: nat, accepted: nat)
    requires accepted <= |data|
    requires |Truncated(fed, limit)| + accepted <= limit
    requires accepted < |data| ==> |Truncated(fed, limit)| + accepted == limit
    ensures Truncated(fed + data, limit) == Truncated(fed, limit) + data[..accepted]
  {}

  /** The world after an append settled with `accepted` bytes, the log already holding them. */
  lemma AppendDir(p: Policy, w: World, pid: Pid, data: seq<Byte>, accepted: nat)
    requires Inv(p, w) && pid in w.procs && StateLock in PcHolds(w.procs[pid].pc) && StatusIs(w.dir, true)
    requires var job := w.dir.file.value.job;
      && 0 <= job.captured && 0 <= job.outputLimit
      && AcceptedBytes(p, job.captured, |data|, job.outputLimit) == Some(accepted)
      && job.captured + accepted <= |w.dir.log|
      && w.dir.log[job.captured..job.captured + accepted] == data[..accepted]
    ensures var next := Appended(w.dir.file.value, accepted);
      var d := w.dir.(file := Some(next), fed := w.dir.fed + data);
      Valid(p, next) && FileOk(p, d) && WriteFrame(p, w, d, pid)
  {
    hide ProcsOk, LateOk, CleanOk, Committed, Extends;
    HeldOwned(p, w, pid);
    var s := w.dir.file.value;
    var next := Appended(s, accepted);
    AppendedCommitted(p, s, |data|, w.dir.clock);
    CommittedValid(p, s, w.dir.clock);
    CommittedValid(p, next, w.dir.clock);
    TruncatedGrows(w.dir.fed, data, s.job.outputLimit, accepted);
    var c := s.job.captured;
    assert w.dir.log[..c + accepted] == w.dir.log[..c] + w.dir.log[c..c + accepted];
  }

  lemma CommittedValid(p: Policy, s: PersistedState, now: int)
    requires Committed(p, s, now)
    ensures Valid(p, s) && 0 <= s.job.captured <= s.job.outputLimit
  {}

  /** The step that reports an append: history, the limit flag, and the lock to release. */
  lemma AppendSettled(p: Policy, w: World, pid: Pid, data: seq<Byte>, accepted: nat, v: World)
    requires Inv(p, w) && pid in w.procs && PcHolds(w.procs[pid].pc) == {StateLock} && PastCheck(w.procs[pid].pc)
    requires StatusIs(w.dir, true)
    requires var d := w.dir.(file := Some(Appended(w.dir.file.value, accepted)), fed := w.dir.fed + data);
      && FileOk(p, d) && WriteFrame(p, w, d, pid) && v.dir == d
    requires v.owner == w.owner && v.orphaned == w.orphaned
    requires v.late == w.late || v.late == w.late + 1
    requires var job := v.dir.file.value.job;
      v.procs == w.procs[pid := w.procs[pid].(pc := Closing({StateLock}),
                           sawLimit := w.procs[pid].sawLimit || job.captured == job.outputLimit)]
    ensures Inv(p, v)
  {
    hide Inv, Committed, Extends, Valid, WritingOk, OpOk, WriteFrame;
    OneProc(p, w, pid);
    FlagsKept(p, w, v.dir, pid, w.procs[pid], Outcome(Normal, ShellWait(None, None)));
    WriteDone(p, w, v, pid);
  }

  lemma AppendAdvance(p: Policy, w: World, pid: Pid)
    requires Inv(p, w) && pid in w.procs && w.procs[pid].pc.Mutate? && w.procs[pid].pc.op.Append?
    ensures Inv(p, MutateStep(p, w, pid))
  {
    hide Inv, Committed, Extends, Valid, OpOk, FileOk, WriteFrame;
    OneProc(p, w, pid);
    FilePart(p, w);
    var data := w.procs[pid].pc.op.data;
    if !StatusIs(w.dir, true) {
      MoveStep(p, w, pid, Closing({StateLock}));
    } else {
      var s := w.dir.file.value;
      FileFacts(p, w);
      var accepted := AcceptedBytes(p, s.job.captured, |data|, s.job.outputLimit).value;
      if accepted == 0 {
        AppendDir(p, w, pid, data, 0);
        assert Appended(s, 0) == s;
        AppendSettled(p, w, pid, data, 0, MutateStep(p, w, pid));
      } else {
        LateWhilePast(p, w, pid);
        MoveStep(p, w, pid, Writing(data, accepted, 0));
      }
    }
  }

  lemma LateWhilePast(p: Policy, w: World, pid: Pid)
    requires Inv(p, w) && pid in w.procs && PastCheck(w.procs[pid].pc)
    ensures w.dir.intent ==> w.late == 0
  {}

  lemma FileFacts(p: Policy, w: World)
    requires Inv(p, w) && w.dir.file.Some?
    ensures var job := w.dir.file.value.job;
      && 0 <= job.captured <= job.outputLimit && 0 < job.outputLimit <= p.captureLimit && job.captured <= |w.dir.log|
  {}

  lemma CommitAppendAdvance(p: Policy, w: World, pid: Pid)
    requires Inv(p, w) && pid in w.procs && w.procs[pid].pc.Writing? && CommitAppend(p, w, pid).Some?
    ensures Inv(p, CommitAppend(p, w, pid).value)
  {
    hide Inv, Committed, Extends, Valid, OpOk, FileOk, WriteFrame;
    OneProc(p, w, pid);
    var pc := w.procs[pid].pc;
    AppendDir(p, w, pid, pc.data, pc.accepted);
    AppendSettled(p, w, pid, pc.data, pc.accepted, CommitAppend(p, w, pid).value);
  }

  /** Writing the next bytes after those already written: the committed prefix stays, the written part grows. */
  lemma OverwriteGrows(log: seq<Byte>, c: nat, data: seq<Byte>, written: nat, count: nat)
    requires written + count <= |data| && c + written <= |log| && log[c..c + written] == data[..written]
    ensures var r := Overwrite(log, c + written, data[written..written + count]);
      && r[..c] == log[..c] && c + written + count <= |r|
      && r[c..c + written + count] == data[..written + count]
  {
    var r := Overwrite(log, c + written, data[written..written + count]);
    assert r[..c] == r[..c + written][..c] == log[..c];
    assert r[c..c + written] == r[..c + written][c..] == data[..written];
    assert r[c..c + written + count] == r[c..c + written] + r[c + written..c + written + count];
    assert data[..written + count] == data[..written] + data[written..written + count];
  }

  /** Bytes past the captured count reach the log: what is committed and what is written stay. */
  lemma WriteSomeDir(p: Policy, w: World, pid: Pid, count: nat)
    requires Inv(p, w) && pid in w.procs && WriteSomeStep(w, pid, count).Some?
    ensures var pc, d := w.procs[pid].pc, WriteSomeStep(w, pid, count).value.dir;
      && d == w.dir.(log := d.log) && FileOk(p, d) && WritingOk(p, d, pc.data, pc.accepted, pc.written + count)
      && pc.Writing? && WriteSomeStep(w, pid, count).value == Goto(w.(dir := d), pid, pc.(written := pc.written + count))
  {
    hide Inv, Committed, LeaseOk, FlagsOk, Overwrite;
    OneProc(p, w, pid);
    InvFile(p, w);
    FileFacts(p, w);
    var pc := w.procs[pid].pc;
    OverwriteGrows(w.dir.log, w.dir.file.value.job.captured, pc.data, pc.written, count);
  }

  lemma LogDone(p: Policy, w: World, v: World, pid: Pid)
    requires Inv(p, w) && pid in w.procs && OnlyMoved(w, v, pid)
    requires v.dir == w.dir.(log := v.dir.log) && FileOk(p, v.dir) && ProcOk(p, v, pid)
    requires v.owner == w.owner && v.late == w.late && v.orphaned == w.orphaned
    requires StateLock in Held(w.procs[pid]) && Held(v.procs[pid]) == Held(w.procs[pid])
    requires !OwnsIntent(w.procs[pid].pc) && !OwnsIntent(v.procs[pid].pc) && (PastCheck(v.procs[pid].pc) ==> PastCheck(w.procs[pid].pc))
    ensures Inv(p, v)
  {
    hide LeaseOk, FlagsOk, PcOk, FileOk, PcHolds;
    HeldOwned(p, w, pid);
    LocksMove(w, v, pid);
    CleanKept(w, v, pid);
    LateMoved(w, v, pid);
    forall q | q in v.procs ensures ProcOk(p, v, q) {
      if q != pid {
        HeldElsewhere(w, pid, q);
        OtherAfterLog(p, w, v, q);
      }
    }
  }

  lemma WriteSomeAdvance(p: Policy, w: World, pid: Pid, count: nat)
    requires Inv(p, w) && pid in w.procs && WriteSomeStep(w, pid, count).Some?
    ensures Inv(p, WriteSomeStep(w, pid, count).value)
  {
    hide Inv, FileOk, WritingOk, SnapOk, WriteSomeStep;
    OneProc(p, w, pid);
    WriteSomeDir(p, w, pid, count);
    LogDone(p, w, WriteSomeStep(w, pid, count).value, pid);
  }

  /** Staying past the check keeps the count. */
  lemma LateMoved(w: World, v: World, pid: Pid)
    requires LateOk(w) && pid in w.procs && OnlyMoved(w, v, pid) && v.dir.intent == w.dir.intent && v.late == w.late
    requires PastCheck(v.procs[pid].pc) ==> PastCheck(w.procs[pid].pc)
    ensures LateOk(v)
  {}

  lemma OtherAfterLog(p: Policy, w: World, v: World, q: Pid)
    requires q in w.procs && ProcOk(p, w, q) && q in v.procs && v.procs[q] == w.procs[q]
    requires StateLock !in Held(w.procs[q]) && v.dir == w.dir.(log := v.dir.log)
    ensures ProcOk(p, v, q)
  {
    hide Committed, Extends;
  }

  // ---------------------------------------------------------------- the intent marker

  lemma OtherAfterIntent(p: Policy, w: World, v: World, q: Pid)
    requires q in w.procs && ProcOk(p, w, q) && q in v.procs && v.procs[q] == w.procs[q]
    requires RecoveryLock !in Held(w.procs[q]) && v.dir == w.dir.(intent := v.dir.intent)
    requires v.dir.intent ==> RunnerLock !in Held(w.procs[q])
    ensures ProcOk(p, v, q)
  {
    hide Committed, Extends;
  }

  /** The recovery lock serializes creation and removal of the marker; creation needs the runner lock too. */
  lemma IntentDone(p: Policy, w: World, v: World, pid: Pid)
    requires Inv(p, w) && pid in w.procs && OnlyMoved(w, v, pid)
    requires v.dir == w.dir.(intent := v.dir.intent) && (v.dir.intent ==> w.dir.file.Some?) && ProcOk(p, v, pid)
    requires v.owner == w.owner
    requires RecoveryLock in Held(w.procs[pid]) && Held(v.procs[pid]) == Held(w.procs[pid])
    requires v.dir.intent ==> RunnerLock in Held(w.procs[pid]) && OwnsIntent(v.procs[pid].pc) && v.late == 0
    requires !v.orphaned
    ensures Inv(p, v)
  {
    hide LeaseOk, FlagsOk, PcOk, PcHolds;
    HeldOwned(p, w, pid);
    LocksMove(w, v, pid);
    forall q | q in v.procs ensures ProcOk(p, v, q) {
      if q != pid {
        HeldElsewhere(w, pid, q);
        OtherAfterIntent(p, w, v, q);
      }
    }
  }

  lemma TookAdvance(p: Policy, w: World, pid: Pid)
    requires Inv(p, w) && pid in w.procs && w.procs[pid].pc.Took?
    ensures Inv(p, TookStep(w, pid))
  {
    hide Inv, PcHolds, OwnsIntent;
    var pc := w.procs[pid].pc;
    if w.dir.file.None? { TookNothing(p, w, pid); }
    else if !pc.running { TookClear(p, w, pid); }
    else if pc.seen { MoveStepOwning(p, w, pid); }
    else { TookCreate(p, w, pid); }
  }

  lemma TookNothing(p: Policy, w: World, pid: Pid)
    requires Inv(p, w) && pid in w.procs && w.procs[pid].pc.Took?
    ensures Inv(p, Goto(w, pid, Closing({RunnerLock, RecoveryLock})))
  {
    hide Inv;
    MoveStep(p, w, pid, Closing({RunnerLock, RecoveryLock}));
  }

  lemma TookClear(p: Policy, w: World, pid: Pid)
    requires Inv(p, w) && pid in w.procs && w.procs[pid].pc.Took? && w.dir.file.Some?
    ensures Inv(p, Goto(w.(dir := w.dir.(intent := false), orphaned := false), pid, Closing({RunnerLock, RecoveryLock})))
  {
    hide Inv, WritingOk, SnapOk, OutcomeFits, OpOk;
    OneProc(p, w, pid);
    IntentDone(p, w, Goto(w.(dir := w.dir.(intent := false), orphaned := false), pid, Closing({RunnerLock, RecoveryLock})), pid);
  }

  lemma TookCreate(p: Policy, w: World, pid: Pid)
    requires Inv(p, w) && pid in w.procs && w.procs[pid].pc.Took? && !w.procs[pid].pc.seen && w.dir.file.Some?
    ensures Inv(p, Goto(w.(dir := w.dir.(intent := true), late := 0), pid, AwaitStateLost))
  {
    hide Inv, WritingOk, SnapOk, OutcomeFits, OpOk;
    OneProc(p, w, pid);
    IntentDone(p, w, Goto(w.(dir := w.dir.(intent := true), late := 0), pid, AwaitStateLost), pid);
  }

  /** A reconciler that finds an intent adopts it. */
  lemma MoveStepOwning(p: Policy, w: World, pid: Pid)
    requires Inv(p, w) && pid in w.procs && w.procs[pid].pc.Took? && w.procs[pid].pc.seen
    requires w.dir.file.Some?
    ensures Inv(p, Goto(w.(orphaned := false), pid, AwaitStateLost))
  {
    hide Inv, WritingOk, SnapOk, OutcomeFits, OpOk;
    OneProc(p, w, pid);
    OwnerChanged(p, w, Goto(w.(orphaned := false), pid, AwaitStateLost), pid);
  }

  lemma ClearAdvance(p: Policy, w: World, pid: Pid)
    requires Inv(p, w) && pid in w.procs && (w.procs[pid].pc.ClearLost? || w.procs[pid].pc.ClearIntent?)
    ensures Inv(p, AdvanceStep(p, w, pid).value)
  {
    hide Inv, WritingOk, SnapOk, OutcomeFits, OpOk, MutateStep, CommitAppend, TookStep, EraseStep, WriteThen, ObserveStep, TryRunnerStep;
    OneProc(p, w, pid);
    IntentDone(p, w, AdvanceStep(p, w, pid).value, pid);
  }

  lemma CreateIntentAdvance(p: Policy, w: World, pid: Pid)
    requires Inv(p, w) && pid in w.procs && w.procs[pid].pc.CreateIntent?
    ensures Inv(p, AdvanceStep(p, w, pid).value) && !w.dir.intent
  {
    hide Inv, WritingOk, SnapOk, OutcomeInRange, OpOk, MutateStep, CommitAppend, TookStep, EraseStep, WriteThen, ObserveStep, TryRunnerStep;
    OneProc(p, w, pid);
    var v := AdvanceStep(p, w, pid).value;
    assert v == Goto(w.(dir := w.dir.(intent := true), late := 0), pid, AwaitStatePublish(w.procs[pid].pc.outcome));
    IntentDone(p, w, v, pid);
  }

  // ---------------------------------------------------------------- erasure

  lemma OtherAfterErase(p: Policy, w: World, v: World, q: Pid)
    requires q in w.procs && ProcOk(p, w, q) && q in v.procs && v.procs[q] == w.procs[q]
    requires RunnerLock !in Held(w.procs[q]) && StateLock !in Held(w.procs[q])
    requires v.dir == w.dir.(file := None, log := [], intent := false)
    ensures ProcOk(p, v, q)
  {
    hide Committed;
  }

  lemma EraseDone(p: Policy, w: World, v: World, pid: Pid)
    requires Inv(p, w) && pid in w.procs && OnlyMoved(w, v, pid)
    requires v.dir == w.dir.(file := None, log := [], intent := false)
    requires v.owner == w.owner && v.late == w.late && !v.orphaned
    requires {RunnerLock, StateLock} <= Held(w.procs[pid]) && Held(v.procs[pid]) == Held(w.procs[pid])
    requires ProcOk(p, v, pid)
    ensures Inv(p, v)
  {
    hide LeaseOk, FlagsOk, PcOk, PcHolds;
    HeldOwned(p, w, pid);
    LocksMove(w, v, pid);
    forall q | q in v.procs ensures ProcOk(p, v, q) {
      if q != pid {
        HeldElsewhere(w, pid, q);
        OtherAfterErase(p, w, v, q);
      }
    }
  }

  lemma EraseGone(p: Policy, w: World, pid: Pid)
    requires Inv(p, w) && pid in w.procs && w.procs[pid].pc.Erase?
    ensures Inv(p, Goto(w.(dir := w.dir.(file := None, log := [], intent := false), orphaned := false), pid, Closing({RunnerLock, StateLock})))
  {
    hide Inv, WritingOk, SnapOk, OutcomeFits, OpOk;
    OneProc(p, w, pid);
    EraseDone(p, w, Goto(w.(dir := w.dir.(file := None, log := [], intent := false), orphaned := false), pid, Closing({RunnerLock, StateLock})), pid);
  }

  lemma EraseAdvance(p: Policy, w: World, pid: Pid)
    requires Inv(p, w) && pid in w.procs && w.procs[pid].pc.Erase?
    ensures Inv(p, EraseStep(w, pid))
  {
    hide Inv, LeaseOk, FlagsOk;
    EraseGone(p, w, pid);
    MoveStep(p, w, pid, Closing({RunnerLock, StateLock}));
  }

  // ---------------------------------------------------------------- time, births and deaths

  lemma TickStep(p: Policy, w: World, elapsed: nat)
    requires Inv(p, w)
    ensures Inv(p, w.(dir := w.dir.(clock := w.dir.clock + elapsed)))
  {
    var v := w.(dir := w.dir.(clock := w.dir.clock + elapsed));
    forall q | q in v.procs ensures ProcOk(p, v, q) {
      assert ProcOk(p, w, q);
      OtherAfterTick(p, w, v, q);
    }
  }

  lemma OtherAfterTick(p: Policy, w: World, v: World, q: Pid)
    requires q in w.procs && ProcOk(p, w, q) && q in v.procs && v.procs[q] == w.procs[q]
    requires w.dir.clock <= v.dir.clock && v.dir == w.dir.(clock := v.dir.clock)
    ensures ProcOk(p, v, q)
  {
    hide Committed, Extends, LeaseOk, FlagsOk, Truncated, OutcomeInRange;
    var pc := w.procs[q].pc;
    LeaseAfterTick(w.dir, v.dir, q, w.procs[q]);
    if pc.ReadLog? || pc.Respond? { CommittedLater(p, pc.snap, w.dir.clock, v.dir.clock); }
  }

  lemma LeaseAfterTick(d: Dir, later: Dir, q: Pid, proc: Proc)
    requires LeaseOk(d, q, proc) && FlagsOk(d, proc) && later == d.(clock := later.clock)
    ensures LeaseOk(later, q, proc) && FlagsOk(later, proc)
  {}

  lemma SpawnStep(p: Policy, w: World, pid: Pid)
    requires Inv(p, w) && pid !in w.procs
    ensures Inv(p, w.(procs := w.procs[pid := Proc(Idle, false, false, false)]))
  {
    hide PcOk, FileOk, FlagsOk;
    var v := w.(procs := w.procs[pid := Proc(Idle, false, false, false)]);
    IdleFacts(p, v.dir);
    forall q | q in v.procs ensures ProcOk(p, v, q) {
      if q != pid { assert ProcOk(p, w, q); }
    }
    assert Held(v.procs[pid]) == {};
  }

  lemma IdleFacts(p: Policy, d: Dir)
    ensures PcOk(p, d, Proc(Idle, false, false, false)) && FlagsOk(d, Proc(Idle, false, false, false))
  {}

  lemma OwnerSeesIntent(p: Policy, d: Dir, proc: Proc)
    requires PcOk(p, d, proc) && OwnsIntent(proc.pc)
    ensures d.intent
  {}

  /** A process dies or leaves: its locks are free, everything in the directory stays. */
  lemma GoneStep(p: Policy, w: World, pid: Pid)
    requires Inv(p, w) && pid in w.procs
    ensures Inv(p, Gone(w, pid).(orphaned := w.orphaned || OwnsIntent(w.procs[pid].pc)))
  {
    hide LeaseOk, FlagsOk, PcHolds, FileOk, PcOk, OwnsIntent, PastCheck;
    var v := Gone(w, pid).(orphaned := w.orphaned || OwnsIntent(w.procs[pid].pc));
    HeldOwned(p, w, pid);
    assert ProcOk(p, w, pid);
    if OwnsIntent(w.procs[pid].pc) {
      OwnerHolds(w.procs[pid].pc);
      OwnerSeesIntent(p, w.dir, w.procs[pid]);
    }
    forall q, l | q in v.procs && l in Held(v.procs[q]) ensures l in v.owner && v.owner[l] == q {
      assert l in Held(w.procs[q]);
    }
    forall l | l in v.owner ensures v.owner[l] in v.procs && l in Held(v.procs[v.owner[l]]) {
      assert l in w.owner && l !in Held(w.procs[pid]);
    }
    forall q | q in v.procs ensures ProcOk(p, v, q) { assert ProcOk(p, w, q); }
  }

  // ---------------------------------------------------------------- the invariant is inductive

  lemma AdvanceInv(p: Policy, w: World, pid: Pid)
    requires Inv(p, w) && pid in w.procs && AdvanceStep(p, w, pid).Some?
    ensures Inv(p, AdvanceStep(p, w, pid).value)
  {
    hide Inv, MutateStep, CommitAppend, TookStep, EraseStep, WriteThen, ObserveStep, TryRunnerStep, Goto, Acquire, LockedStep;
    var pc := w.procs[pid].pc;
    if LockPc(pc) { LockAdvance(p, w, pid); }
    else if pc.AwaitNoIntent? || pc.AwaitRecovery? || pc.TryErase? { WaitAdvance(p, w, pid); }
    else if pc.ReadState? { ReadStateAdvance(p, w, pid); }
    else if pc.TryRunner? { TryRunnerAdvance(p, w, pid); }
    else if pc.CheckIntent? { CheckIntentAdvance(p, w, pid); }
    else if pc.Mutate? { MutateInv(p, w, pid); }
    else if pc.Writing? { CommitAppendAdvance(p, w, pid); }
    else if WritePc(pc) { WriteAdvance(p, w, pid); }
    else if pc.Took? { TookAdvance(p, w, pid); }
    else if pc.ClearLost? || pc.ClearIntent? { ClearAdvance(p, w, pid); }
    else if pc.CreateIntent? { CreateIntentAdvance(p, w, pid); }
    else if pc.Erase? { EraseAdvance(p, w, pid); }
    else { ObserveAdvance(p, w, pid); }
  }

  lemma MutateInv(p: Policy, w: World, pid: Pid)
    requires Inv(p, w) && pid in w.procs && w.procs[pid].pc.Mutate?
    ensures Inv(p, MutateStep(p, w, pid))
  {
    hide Inv, WriteThen;
    if w.procs[pid].pc.op.Append? { AppendAdvance(p, w, pid); } else { WriteAdvance(p, w, pid); }
  }

  /** Every step keeps the invariant, whoever takes it and whoever dies. */
  lemma StepInv(p: Policy, w: World, pid: Pid, a: Action)
    requires Inv(p, w) && Step(p, w, pid, a).Some?
    ensures Inv(p, Step(p, w, pid, a).value)
  {
    hide Inv, AdvanceStep, GiveUpStep, WriteSomeStep, ReleaseStep, StartStep, OwnsIntent;
    if a.Tick? { TickStep(p, w, a.elapsed); }
    else if a.Spawn? { SpawnStep(p, w, pid); }
    else if a.Crash? { GoneStep(p, w, pid); }
    else if a.Exit? { IdleOwnsNothing(w.procs[pid].pc); GoneStep(p, w, pid); }
    else if a.GiveUp? { GiveUpAdvance(p, w, pid); }
    else if a.Advance? { AdvanceInv(p, w, pid); }
    else if a.WriteSome? { WriteSomeAdvance(p, w, pid, a.count); }
    else if a.Release? { ReleaseAdvance(p, w, pid, a.lock); }
    else { StartAdvance(p, w, pid, a); }
  }

  lemma IdleOwnsNothing(pc: PC)
    requires pc.Idle?
    ensures !OwnsIntent(pc)
  {}

  /** Every world of every run satisfies the invariant. */
  lemma {:induction false} RunInv(p: Policy, worlds: seq<World>, moves: seq<Move>, k: nat)
    requires IsRun(p, worlds, moves) && k < |worlds|
    ensures Inv(p, worlds[k])
  {
    hide Inv, Step;
    if k == 0 {
      var r, started, clock :| AdmissibleStart(p, r) && worlds[0] == Initial(r, started, clock);
      InitialInv(p, r, started, clock);
    } else {
      RunInv(p, worlds, moves, k - 1);
      assert Step(p, worlds[k - 1], moves[k - 1].pid, moves[k - 1].action) == Some(worlds[k - 1 + 1]);
      StepInv(p, worlds[k - 1], moves[k - 1].pid, moves[k - 1].action);
    }
  }
}
