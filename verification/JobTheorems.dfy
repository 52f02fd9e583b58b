/** What the store protocol guarantees over whole runs, crashes included. */
module JobTheorems {
  import opened JobState
  import opened JobProtocol
  import opened JobInvariant

  // ---------------------------------------------------------------- one chain of committed states

  /** A step leaves the state file alone, replaces it by an extension, or erases a terminal one. */
  ghost predicate FileStep(w: World, v: World) {
    match w.dir.file
    case None => v.dir.file.None?
    case Some(s) =>
      if v.dir.file.Some? then Extends(s, v.dir.file.value) else s.job.status != Running
  }

  lemma PublishAccepted(p: Policy, w: World, pid: Pid, pc: PC, next: PersistedState)
    requires w.dir.file.Some? && Valid(p, next) && PublishGuard(w.dir.file.value, next, |w.dir.log|)
    requires pid in w.procs && Candidate(p, w, pid) == Some(next)
    ensures var v := WriteThen(p, w, pid, pc);
      && v.dir.file == Some(next) && v.dir.intent == w.dir.intent
      && v.late == if next.job.status == Running then w.late + 1 else w.late
  {
    hide Valid, Candidate, PublishGuard;
  }

  lemma SomeCandidate(p: Policy, w: World, pid: Pid, pc: PC)
    requires Inv(p, w) && pid in w.procs
    ensures FileStep(w, WriteThen(p, w, pid, pc))
    ensures WriteThen(p, w, pid, pc).dir.intent == w.dir.intent
    ensures WriteThen(p, w, pid, pc).dir.file == if Candidate(p, w, pid).Some? then Candidate(p, w, pid) else w.dir.file
    ensures var next := Candidate(p, w, pid);
      WriteThen(p, w, pid, pc).late == if next.Some? && next.value.job.status == Running then w.late + 1 else w.late
  {
    hide Inv, Valid, Extends, Candidate, PublishGuard, Publish;
    if w.dir.file.Some? { ExtendsRefl(w.dir.file.value); }
    if Candidate(p, w, pid).Some? { WriteSucceeds(p, w, pid, pc); }
  }

  lemma WriteSucceeds(p: Policy, w: World, pid: Pid, pc: PC)
    requires Inv(p, w) && pid in w.procs && Candidate(p, w, pid).Some?
    ensures var v, next := WriteThen(p, w, pid, pc), Candidate(p, w, pid).value;
      && w.dir.file.Some? && Extends(w.dir.file.value, next)
      && v.dir.file == Some(next) && v.dir.intent == w.dir.intent
      && v.late == if next.job.status == Running then w.late + 1 else w.late
  {
    hide Inv, Valid, Extends, Candidate, PublishGuard, WriteThen;
    CandidateAccepted(p, w, pid);
    PublishAccepted(p, w, pid, pc, Candidate(p, w, pid).value);
  }

  lemma WriteAdvances(p: Policy, w: World, pid: Pid)
    requires pid in w.procs && WritePc(w.procs[pid].pc)
    ensures AdvanceStep(p, w, pid) == Some(WriteThen(p, w, pid, AfterWrite(w.procs[pid].pc)))
  {
    hide WriteThen, CommitAppend, EraseStep, ObserveStep, TookStep, TryRunnerStep;
  }

  /** The runner at its write always has something to write. */
  lemma PublicationCandidate(p: Policy, w: World, pid: Pid)
    requires Inv(p, w) && pid in w.procs && w.procs[pid].pc.WriteTerminal? && w.dir.file.Some?
    ensures Candidate(p, w, pid).Some? && Candidate(p, w, pid) == TerminalState(w.dir.file.value, w.procs[pid].pc.outcome, w.dir.clock)
  {
    hide Inv, Extends, Valid, Committed;
    OneProc(p, w, pid);
    InvFile(p, w);
    TerminalAccepted(p, w, pid, w.procs[pid].pc.outcome);
  }

  /** The positions whose next step may replace or erase the file. */
  predicate FilePc(pc: PC) { WritePc(pc) || pc.Writing? || pc.Erase? }

  lemma AppendKeepsFile(p: Policy, w: World, pid: Pid)
    requires pid in w.procs && w.procs[pid].pc.Mutate? && w.procs[pid].pc.op.Append?
    ensures MutateStep(p, w, pid).dir.file == w.dir.file && MutateStep(p, w, pid).late == w.late
  {}

  lemma FileUntouched(p: Policy, w: World, pid: Pid)
    requires pid in w.procs && !FilePc(w.procs[pid].pc) && AdvanceStep(p, w, pid).Some?
    ensures var v := AdvanceStep(p, w, pid).value;
      v.dir.file == w.dir.file && (w.late <= v.late || w.procs[pid].pc.Took? || w.procs[pid].pc.CreateIntent?)
  {
    hide AdvanceStep;
    var pc := w.procs[pid].pc;
    if LockPc(pc) { LockTouchesNothing(p, w, pid); } else { OtherTouchesNothing(p, w, pid); }
  }

  lemma LockTouchesNothing(p: Policy, w: World, pid: Pid)
    requires pid in w.procs && LockPc(w.procs[pid].pc) && AdvanceStep(p, w, pid).Some?
    ensures AdvanceStep(p, w, pid).value.dir == w.dir && AdvanceStep(p, w, pid).value.late == w.late
  {
    hide WriteThen, CommitAppend, EraseStep, MutateStep, ObserveStep, TryRunnerStep, TookStep;
  }

  lemma OtherTouchesNothing(p: Policy, w: World, pid: Pid)
    requires pid in w.procs && !FilePc(w.procs[pid].pc) && !LockPc(w.procs[pid].pc) && AdvanceStep(p, w, pid).Some?
    ensures var v := AdvanceStep(p, w, pid).value;
      v.dir.file == w.dir.file && (w.late <= v.late || w.procs[pid].pc.Took? || w.procs[pid].pc.CreateIntent?)
  {
    hide WriteThen, CommitAppend, EraseStep, MutateStep;
    var pc := w.procs[pid].pc;
    if pc.Mutate? { AppendKeepsFile(p, w, pid); }
  }

  /** The encoder never refuses what an append commits. */
  lemma AppendAccepted(p: Policy, w: World, pid: Pid)
    requires Inv(p, w) && pid in w.procs && w.procs[pid].pc.Writing?
    ensures w.dir.file.Some? && Valid(p, Appended(w.dir.file.value, w.procs[pid].pc.accepted))
    ensures Extends(w.dir.file.value, Appended(w.dir.file.value, w.procs[pid].pc.accepted))
  {
    OneProc(p, w, pid);
    AppendedCommitted(p, w.dir.file.value, |w.procs[pid].pc.data|, w.dir.clock);
  }

  lemma ChainAdvance(p: Policy, w: World, pid: Pid)
    requires Inv(p, w) && pid in w.procs && AdvanceStep(p, w, pid).Some?
    ensures FileStep(w, AdvanceStep(p, w, pid).value)
  {
    hide Inv, Extends, Valid, Candidate, WriteThen, ObserveStep, TryRunnerStep, TookStep, LockedStep;
    if w.dir.file.Some? { ExtendsRefl(w.dir.file.value); }
    var pc := w.procs[pid].pc;
    if pc.Writing? { AppendAccepted(p, w, pid); }
    else if WritePc(pc) { SomeCandidate(p, w, pid, AfterWrite(pc)); }
    else if !pc.Erase? { FileUntouched(p, w, pid); }
  }

  lemma ChainStep(p: Policy, w: World, pid: Pid, a: Action)
    requires Inv(p, w) && Step(p, w, pid, a).Some?
    ensures FileStep(w, Step(p, w, pid, a).value)
  {
    hide Inv, Extends, AdvanceStep;
    if w.dir.file.Some? { ExtendsRefl(w.dir.file.value); }
    if a.Advance? { ChainAdvance(p, w, pid); }
  }

  /** Along every run the committed states form one chain: captured bytes and cursors never decrease,
      a cancellation is written once, and a terminal outcome never changes. */
  lemma {:induction false} CommittedStatesFormAChain(p: Policy, worlds: seq<World>, moves: seq<Move>, i: nat, j: nat)
    requires IsRun(p, worlds, moves) && i <= j < |worlds|
    ensures worlds[i].dir.file.None? ==> worlds[j].dir.file.None?
    ensures worlds[i].dir.file.Some? && worlds[j].dir.file.Some? ==>
      Extends(worlds[i].dir.file.value, worlds[j].dir.file.value)
  {
    hide Inv, Step, Extends;
    if i == j {
      if worlds[i].dir.file.Some? { ExtendsRefl(worlds[i].dir.file.value); }
    } else {
      CommittedStatesFormAChain(p, worlds, moves, i, j - 1);
      RunInv(p, worlds, moves, j - 1);
      assert Step(p, worlds[j - 1], moves[j - 1].pid, moves[j - 1].action) == Some(worlds[j - 1 + 1]);
      ChainStep(p, worlds[j - 1], moves[j - 1].pid, moves[j - 1].action);
      if worlds[i].dir.file.Some? && worlds[j].dir.file.Some? {
        ExtendsTransitive(worlds[i].dir.file.value, worlds[j - 1].dir.file.value, worlds[j].dir.file.value);
      }
    }
  }

  /** Every state any process ever sees in the file passes the validator. */
  lemma CommittedStatesAreValid(p: Policy, worlds: seq<World>, moves: seq<Move>, i: nat)
    requires IsRun(p, worlds, moves) && i < |worlds| && worlds[i].dir.file.Some?
    ensures Valid(p, worlds[i].dir.file.value) && CancelConsistent(worlds[i].dir.file.value)
  {
    RunInv(p, worlds, moves, i);
  }

  // ---------------------------------------------------------------- cancellation

  /** Once a cancellation is persisted the job can only end cancelled or lost; and only a job with a
      persisted cancellation is ever cancelled. */
  lemma RequestedCancellationDecides(p: Policy, worlds: seq<World>, moves: seq<Move>, i: nat, j: nat)
    requires IsRun(p, worlds, moves) && i <= j < |worlds|
    requires worlds[i].dir.file.Some? && worlds[j].dir.file.Some?
    ensures worlds[i].dir.file.value.cancellation.Some? && worlds[j].dir.file.value.job.status != Running ==>
      worlds[j].dir.file.value.job.status in {Cancelled, RunnerLost}
    ensures worlds[j].dir.file.value.job.status == Cancelled ==> worlds[j].dir.file.value.cancellation.Some?
  {
    CommittedStatesFormAChain(p, worlds, moves, i, j);
    CommittedStatesAreValid(p, worlds, moves, j);
  }

  // ---------------------------------------------------------------- runner_lost and removal

  predicate StatusOf(w: World, status: Status) {
    w.dir.file.Some? && w.dir.file.value.job.status == status
  }

  /** The loss of the runner is recorded only from the reconciler's write position. */
  lemma LostWriter(p: Policy, w: World, pid: Pid)
    requires Inv(p, w) && pid in w.procs && AdvanceStep(p, w, pid).Some?
    ensures !StatusOf(w, RunnerLost) && StatusOf(AdvanceStep(p, w, pid).value, RunnerLost) ==>
      w.procs[pid].pc.WriteLost? && StatusOf(w, Running)
  {
    hide Inv, Extends, Valid, Candidate, WriteThen, ObserveStep, TryRunnerStep, TookStep, LockedStep;
    var pc := w.procs[pid].pc;
    if WritePc(pc) {
      SomeCandidate(p, w, pid, AfterWrite(pc));
      if Candidate(p, w, pid).Some? { LostCandidate(p, w, pid); }
    } else if !FilePc(pc) { FileUntouched(p, w, pid); }
  }

  lemma LostCandidate(p: Policy, w: World, pid: Pid)
    requires Inv(p, w) && pid in w.procs && Candidate(p, w, pid).Some?
    ensures Candidate(p, w, pid).value.job.status == RunnerLost && !StatusOf(w, RunnerLost) ==>
      w.procs[pid].pc.WriteLost? && StatusOf(w, Running)
  {
    hide Inv, Extends, Valid;
    CandidateAccepted(p, w, pid);
  }

  lemma LeaseHolder(p: Policy, w: World, q: Pid)
    requires Inv(p, w) && q in w.procs && w.procs[q].lease
    ensures RunnerLock in w.owner && w.owner[RunnerLock] == q
  {
    assert RunnerLock in Held(w.procs[q]);
  }

  /** `runner_lost` is written only while nobody holds the lease. */
  lemma RunnerLostNeedsFreeLease(p: Policy, w: World, pid: Pid, a: Action, q: Pid)
    requires Inv(p, w) && Step(p, w, pid, a).Some? && q in w.procs
    ensures !StatusOf(w, RunnerLost) && StatusOf(Step(p, w, pid, a).value, RunnerLost) ==>
      StatusOf(w, Running) && !w.procs[q].lease
  {
    hide Inv, Extends, Valid, AdvanceStep;
    if a.Advance? && pid in w.procs && !StatusOf(w, RunnerLost) && StatusOf(Step(p, w, pid, a).value, RunnerLost) {
      LostWriter(p, w, pid);
      OneProc(p, w, pid);
      WriteLocks(p, w, pid);
      if w.procs[q].lease { LeaseHolder(p, w, q); }
    }
  }

  /** A job directory disappears only in a terminal state, with the runner gone. */
  lemma RemovalNeverErasesRunningJob(p: Policy, w: World, pid: Pid, a: Action, q: Pid)
    requires Inv(p, w) && Step(p, w, pid, a).Some? && q in w.procs
    requires w.dir.file.Some? && Step(p, w, pid, a).value.dir.file.None?
    ensures w.dir.file.value.job.status != Running && !w.procs[q].lease
    ensures a.Advance? && w.procs[pid].pc.Erase? && w.procs[pid].pc.actor == w.dir.file.value.job.owner
  {
    hide Inv, Extends, Valid, AdvanceStep;
    ChainStep(p, w, pid, a);
    assert a.Advance?;
    EraseWriter(p, w, pid);
    HeldOwned(p, w, pid);
    OneProc(p, w, pid);
    if w.procs[q].lease { LeaseHolder(p, w, q); }
  }

  lemma EraseWriter(p: Policy, w: World, pid: Pid)
    requires Inv(p, w) && pid in w.procs && AdvanceStep(p, w, pid).Some?
    requires w.dir.file.Some? && AdvanceStep(p, w, pid).value.dir.file.None?
    ensures w.procs[pid].pc.Erase? && w.procs[pid].pc.actor == w.dir.file.value.job.owner
  {
    hide Inv, Extends, Valid, Candidate, WriteThen, ObserveStep, TryRunnerStep, TookStep, LockedStep;
    var pc := w.procs[pid].pc;
    if WritePc(pc) { SomeCandidate(p, w, pid, AfterWrite(pc)); }
    else if !FilePc(pc) { FileUntouched(p, w, pid); }
  }

  // ---------------------------------------------------------------- the intent window

  /** Non-terminal writes among the worlds `i..j` of a run. */
  ghost function WritesBetween(worlds: seq<World>, i: nat, j: nat): nat
    requires i <= j < |worlds|
    decreases j
  {
    if i == j then 0
    else WritesBetween(worlds, i, j - 1)
         + if worlds[j - 1].dir.file != worlds[j].dir.file && StatusOf(worlds[j], Running) then 1 else 0
  }

  /** A write that leaves the job running is counted, and only creating an intent resets the count. */
  lemma LateCounts(p: Policy, w: World, pid: Pid, a: Action)
    requires Inv(p, w) && Step(p, w, pid, a).Some?
    requires w.dir.intent && Step(p, w, pid, a).value.dir.intent
    ensures var v := Step(p, w, pid, a).value;
      w.late + (if v.dir.file != w.dir.file && StatusOf(v, Running) then 1 else 0) <= v.late
  {
    hide Inv, Extends, Valid, AdvanceStep;
    if a.Advance? { LateAdvance(p, w, pid); }
  }

  lemma LateAdvance(p: Policy, w: World, pid: Pid)
    requires Inv(p, w) && pid in w.procs && AdvanceStep(p, w, pid).Some?
    requires w.dir.intent && AdvanceStep(p, w, pid).value.dir.intent
    ensures var v := AdvanceStep(p, w, pid).value;
      w.late + (if v.dir.file != w.dir.file && StatusOf(v, Running) then 1 else 0) <= v.late
  {
    hide Inv, Extends, Valid, Candidate, WriteThen, ObserveStep, TryRunnerStep, TookStep, LockedStep;
    OneProc(p, w, pid);
    var pc := w.procs[pid].pc;
    if pc.Took? { TookKeepsLate(p, w, pid); }
    else if pc.CreateIntent? { CreateIntentAdvance(p, w, pid); }
    else if WritePc(pc) { SomeCandidate(p, w, pid, AfterWrite(pc)); }
    else if !FilePc(pc) { FileUntouched(p, w, pid); }
  }

  lemma TookKeepsLate(p: Policy, w: World, pid: Pid)
    requires Inv(p, w) && pid in w.procs && w.procs[pid].pc.Took? && w.dir.intent
    ensures w.late <= TookStep(w, pid).late && TookStep(w, pid).dir.file == w.dir.file
  {
    OneProc(p, w, pid);
  }

  /** From the creation of the intent to its removal at most one write leaves the job running: that of
      a mutator already past its check. */
  lemma {:induction false} AtMostOneLateWrite(p: Policy, worlds: seq<World>, moves: seq<Move>, i: nat, j: nat)
    requires IsRun(p, worlds, moves) && i <= j < |worlds|
    requires forall k :: i <= k <= j ==> worlds[k].dir.intent
    ensures worlds[i].late + WritesBetween(worlds, i, j) <= worlds[j].late <= 1
  {
    hide Step, FileOk, ProcsOk, LocksOk, CleanOk;
    RunInv(p, worlds, moves, j);
    if i < j {
      AtMostOneLateWrite(p, worlds, moves, i, j - 1);
      RunInv(p, worlds, moves, j - 1);
      assert Step(p, worlds[j - 1], moves[j - 1].pid, moves[j - 1].action) == Some(worlds[j - 1 + 1]);
      LateCounts(p, worlds[j - 1], moves[j - 1].pid, moves[j - 1].action);
    }
  }

  /** The two ways an intent is left behind: its owner crashes, or a reconciler gives up on
      `state.lock` and leaves the marker. */
  predicate LeavesIntent(w: World, pid: Pid, a: Action) {
    pid in w.procs && OwnsIntent(w.procs[pid].pc) && (a.Crash? || (a.GiveUp? && w.procs[pid].pc.AwaitStateLost?))
  }

  /** The marker stands and no holder of the recovery lock is at work on it. */
  ghost predicate Abandoned(w: World) { w.dir.intent && !IntentOwned(w) }

  lemma OrphanedIsAbandoned(p: Policy, w: World)
    requires Inv(p, w)
    ensures w.orphaned <==> Abandoned(w)
  {}

  lemma OrphanedExactly(p: Policy, w: World, pid: Pid, a: Action)
    requires Inv(p, w) && Step(p, w, pid, a).Some? && !w.orphaned
    ensures Step(p, w, pid, a).value.orphaned <==> LeavesIntent(w, pid, a)
  {
    hide Inv;
  }

  /** A step leaves an intent behind exactly when it is one of those two. */
  lemma IntentLeftBehindExactly(p: Policy, w: World, pid: Pid, a: Action)
    requires Inv(p, w) && Step(p, w, pid, a).Some? && !Abandoned(w)
    ensures Abandoned(Step(p, w, pid, a).value) <==> LeavesIntent(w, pid, a)
  {
    hide Inv, Step, Abandoned;
    OrphanedIsAbandoned(p, w);
    OrphanedExactly(p, w, pid, a);
    StepInv(p, w, pid, a);
    OrphanedIsAbandoned(p, Step(p, w, pid, a).value);
  }

  lemma InitialNotAbandoned(p: Policy, worlds: seq<World>, moves: seq<Move>)
    requires IsRun(p, worlds, moves)
    ensures !Abandoned(worlds[0])
  {}

  /** In a run without such a step, the intent exists only while the holder of the recovery lock is at work on it. */
  lemma {:induction false} IntentOnlyUnderRecoveryLock(p: Policy, worlds: seq<World>, moves: seq<Move>, k: nat)
    requires IsRun(p, worlds, moves) && k < |worlds|
    requires forall i :: 0 <= i < k ==> !LeavesIntent(worlds[i], moves[i].pid, moves[i].action)
    ensures worlds[k].dir.intent ==> IntentOwned(worlds[k])
  {
    hide Step, Inv, LeavesIntent;
    if k == 0 {
      InitialNotAbandoned(p, worlds, moves);
    } else {
      IntentOnlyUnderRecoveryLock(p, worlds, moves, k - 1);
      RunInv(p, worlds, moves, k - 1);
      assert Step(p, worlds[k - 1], moves[k - 1].pid, moves[k - 1].action) == Some(worlds[k - 1 + 1]);
      IntentLeftBehindExactly(p, worlds[k - 1], moves[k - 1].pid, moves[k - 1].action);
    }
  }

  /** One reconciler, alone in the directory. */
  function Lone(d: Dir, owner: map<Lock, Pid>, pc: PC, orphaned: bool): World {
    World(d, owner, map[1 := Proc(pc, false, false, false)], 0, orphaned)
  }

  const GIVING_UP: seq<Move> :=
    [Move(RUNNER, Exit), Move(1, Spawn), Move(1, StartReconcile(None)),
     Move(1, Advance), Move(1, Advance), Move(1, Advance), Move(1, Advance),
     Move(1, GiveUp), Move(1, Release(RunnerLock)), Move(1, Release(RecoveryLock))]

  ghost function GivingUpWorlds(r: StartRequest, started: int, clock: int): seq<World> {
    var w := Initial(r, started, clock);
    var d, marked := w.dir, w.dir.(intent := true);
    [w, World(d, map[], map[], 0, false),
     Lone(d, map[], Idle, false), Lone(d, map[], AwaitRecovery(None), false),
     Lone(d, map[RecoveryLock := 1], ReadState(None), false),
     Lone(d, map[RecoveryLock := 1], TryRunner(None, true, false), false),
     Lone(d, map[RecoveryLock := 1, RunnerLock := 1], Took(true, false), false),
     Lone(marked, map[RecoveryLock := 1, RunnerLock := 1], AwaitStateLost, false),
     Lone(marked, map[RecoveryLock := 1, RunnerLock := 1], Closing({RunnerLock, RecoveryLock}), true),
     Lone(marked, map[RecoveryLock := 1], Closing({RecoveryLock}), true),
     Lone(marked, map[], Idle, true)]
  }

  /** Without any crash the intent can outlive its recovery lock: the runner leaves after an error, a
      reconciler creates the marker and runs past its deadline before `state.lock`. */
  lemma IntentCanOutliveItsLock(p: Policy, r: StartRequest, started: int, clock: int)
    requires AdmissibleStart(p, r)
    ensures var worlds := GivingUpWorlds(r, started, clock);
      && IsRun(p, worlds, GIVING_UP) && worlds[10].dir.intent && worlds[10].owner == map[]
    ensures forall m :: m in GIVING_UP ==> !m.action.Crash?
  {
    hide Step, Initial, Lone, AdmissibleStart;
    var w := GivingUpWorlds(r, started, clock);
    assert w[0] == Initial(r, started, clock);
    RunnerLeaves(p, r, started, clock);
    var d := Initial(r, started, clock).dir;
    LoneReads(p, d);
    LoneTakes(p, d);
    LoneGivesUp(p, d.(intent := true));
    LoneEnds(d.(intent := true));
    forall i | 0 <= i < |GIVING_UP|
      ensures Step(p, w[i], GIVING_UP[i].pid, GIVING_UP[i].action) == Some(w[i + 1])
    {}
  }

  lemma LoneEnds(d: Dir)
    ensures var w := Lone(d, map[], Idle, true); w.dir == d && w.owner == map[]
  {}

  /** After an error the runner drops its lease and leaves; another process is born. */
  lemma RunnerLeaves(p: Policy, r: StartRequest, started: int, clock: int)
    ensures var w := Initial(r, started, clock);
      && w.dir.file.Some? && StatusIs(w.dir, true) && !w.dir.intent
      && Step(p, w, RUNNER, Exit) == Some(World(w.dir, map[], map[], 0, false))
      && Step(p, World(w.dir, map[], map[], 0, false), 1, Spawn) == Some(Lone(w.dir, map[], Idle, false))
  {
    hide AdvanceStep, StartStep, GiveUpStep, ReleaseStep, WriteSomeStep;
    var w := Initial(r, started, clock);
    assert Gone(w, RUNNER).procs == map[] && Gone(w, RUNNER).owner == map[];
  }

  lemma LoneGoto(d: Dir, owner: map<Lock, Pid>, pc: PC, orphaned: bool, next: PC)
    ensures Goto(Lone(d, owner, pc, orphaned), 1, next) == Lone(d, owner, next, orphaned)
    ensures Acquire(Lone(d, map[], pc, orphaned), 1, RecoveryLock, next) == Lone(d, map[RecoveryLock := 1], next, orphaned)
    ensures Acquire(Lone(d, map[RecoveryLock := 1], pc, orphaned), 1, RunnerLock, next)
         == Lone(d, map[RecoveryLock := 1, RunnerLock := 1], next, orphaned)
  {
    var w := Lone(d, owner, pc, orphaned);
    assert w.procs[1 := w.procs[1].(pc := next)] == map[1 := Proc(next, false, false, false)];
  }

  lemma LoneReads(p: Policy, d: Dir)
    requires StatusIs(d, true) && !d.intent
    ensures Step(p, Lone(d, map[], Idle, false), 1, StartReconcile(None)) == Some(Lone(d, map[], AwaitRecovery(None), false))
    ensures Step(p, Lone(d, map[], AwaitRecovery(None), false), 1, Advance)
         == Some(Lone(d, map[RecoveryLock := 1], ReadState(None), false))
    ensures Step(p, Lone(d, map[RecoveryLock := 1], ReadState(None), false), 1, Advance)
         == Some(Lone(d, map[RecoveryLock := 1], TryRunner(None, true, false), false))
  {
    hide MutateStep, WriteThen, CommitAppend, EraseStep, ObserveStep, Goto, Acquire;
    LoneGoto(d, map[], Idle, false, AwaitRecovery(None));
    LoneGoto(d, map[], AwaitRecovery(None), false, ReadState(None));
    LoneGoto(d, map[RecoveryLock := 1], ReadState(None), false, TryRunner(None, true, false));
  }

  lemma LoneTakes(p: Policy, d: Dir)
    requires StatusIs(d, true) && !d.intent
    ensures Step(p, Lone(d, map[RecoveryLock := 1], TryRunner(None, true, false), false), 1, Advance)
         == Some(Lone(d, map[RecoveryLock := 1, RunnerLock := 1], Took(true, false), false))
    ensures Step(p, Lone(d, map[RecoveryLock := 1, RunnerLock := 1], Took(true, false), false), 1, Advance)
         == Some(Lone(d.(intent := true), map[RecoveryLock := 1, RunnerLock := 1], AwaitStateLost, false))
  {
    hide MutateStep, WriteThen, CommitAppend, EraseStep, ObserveStep, Goto, Acquire;
    LoneGoto(d, map[], TryRunner(None, true, false), false, Took(true, false));
    LoneGoto(d.(intent := true), map[RecoveryLock := 1, RunnerLock := 1], Took(true, false), false, AwaitStateLost);
  }

  lemma LoneGivesUp(p: Policy, d: Dir)
    ensures Step(p, Lone(d, map[RecoveryLock := 1, RunnerLock := 1], AwaitStateLost, false), 1, GiveUp)
         == Some(Lone(d, map[RecoveryLock := 1, RunnerLock := 1], Closing({RunnerLock, RecoveryLock}), true))
    ensures Step(p, Lone(d, map[RecoveryLock := 1, RunnerLock := 1], Closing({RunnerLock, RecoveryLock}), true), 1, Release(RunnerLock))
         == Some(Lone(d, map[RecoveryLock := 1], Closing({RecoveryLock}), true))
    ensures Step(p, Lone(d, map[RecoveryLock := 1], Closing({RecoveryLock}), true), 1, Release(RecoveryLock))
         == Some(Lone(d, map[], Idle, true))
  {
    hide AdvanceStep, StartStep;
    LoneGoto(d, map[RecoveryLock := 1, RunnerLock := 1], AwaitStateLost, true, Closing({RunnerLock, RecoveryLock}));
    LoneReleases(d, {RunnerLock, RecoveryLock}, map[RecoveryLock := 1, RunnerLock := 1], RunnerLock);
    LoneReleases(d, {RecoveryLock}, map[RecoveryLock := 1], RecoveryLock);
    assert {RunnerLock, RecoveryLock} - {RunnerLock} == {RecoveryLock};
    assert map[RecoveryLock := 1, RunnerLock := 1] - {RunnerLock} == map[RecoveryLock := 1];
    assert map[RecoveryLock := 1] - {RecoveryLock} == map[];
  }

  lemma LoneReleases(d: Dir, held: set<Lock>, owner: map<Lock, Pid>, lock: Lock)
    requires lock in held
    ensures ReleaseStep(Lone(d, owner, Closing(held), true), 1, lock)
         == Some(Lone(d, owner - {lock}, if held - {lock} == {} then Idle else Closing(held - {lock}), true))
  {
    var w := Lone(d, owner, Closing(held), true);
    var next := Proc(if held - {lock} == {} then Idle else Closing(held - {lock}), false, false, false);
    assert w.procs[1 := next] == map[1 := next];
  }

  // ---------------------------------------------------------------- no deadlock

  /** `pid` waits for a lock that `q` holds. */
  predicate WaitsOn(w: World, pid: Pid, q: Pid) {
    && pid in w.procs && q in w.procs
    && WaitsFor(w.procs[pid].pc).Some?
    && WaitsFor(w.procs[pid].pc).value in w.owner && w.owner[WaitsFor(w.procs[pid].pc).value] == q
  }

  /** Recovery before state before nothing. */
  function WaitRank(pc: PC): nat {
    match WaitsFor(pc)
    case None => 0
    case Some(lock) => if lock == RecoveryLock then 2 else 1
  }

  lemma WaitingGoesDown(p: Policy, w: World, pid: Pid, q: Pid)
    requires Inv(p, w) && WaitsOn(w, pid, q)
    ensures WaitRank(w.procs[q].pc) < WaitRank(w.procs[pid].pc)
  {
    var lock := WaitsFor(w.procs[pid].pc).value;
    assert lock in Held(w.procs[q]);
    assert lock in PcHolds(w.procs[q].pc);
    RankBelowHeld(w.procs[q].pc, lock);
  }

  lemma RankBelowHeld(pc: PC, lock: Lock)
    requires lock in PcHolds(pc) && lock != RunnerLock
    ensures WaitRank(pc) < if lock == RecoveryLock then 2 else 1
  {}

  ghost predicate WaitPath(w: World, path: seq<Pid>) {
    forall i :: 0 <= i < |path| - 1 ==> WaitsOn(w, path[i], path[i + 1])
  }

  /** In every reachable world the wait-for graph has no cycle, and no path through more than two waiters. */
  lemma {:induction false} WaitGraphIsAcyclic(p: Policy, w: World, path: seq<Pid>)
    requires Inv(p, w) && |path| >= 2 && WaitPath(w, path)
    ensures path[0] != path[|path| - 1] && |path| <= 3
  {
    hide Inv, WaitsFor;
    PathGoesDown(p, w, path);
  }

  lemma {:induction false} PathGoesDown(p: Policy, w: World, path: seq<Pid>)
    requires Inv(p, w) && |path| >= 2 && WaitPath(w, path)
    ensures path[0] in w.procs && path[|path| - 1] in w.procs
    ensures WaitRank(w.procs[path[|path| - 1]].pc) + |path| - 1 <= WaitRank(w.procs[path[0]].pc) <= 2
  {
    hide Inv, WaitsFor;
    WaitingGoesDown(p, w, path[0], path[1]);
    if |path| > 2 {
      assert WaitPath(w, path[1..]);
      PathGoesDown(p, w, path[1..]);
    }
  }

  predicate Blocked(w: World, pid: Pid)
    requires pid in w.procs
  {
    WaitsFor(w.procs[pid].pc).Some? && WaitsFor(w.procs[pid].pc).value in w.owner
  }

  ghost predicate CanMove(p: Policy, w: World, pid: Pid) {
    exists a :: Step(p, w, pid, a).Some? && (a.Advance? || a.WriteSome? || a.Release?)
  }

  lemma OwnerExists(p: Policy, w: World, lock: Lock)
    requires Inv(p, w) && lock in w.owner
    ensures w.owner[lock] in w.procs && lock in Held(w.procs[w.owner[lock]])
  {}

  /** A holder of the recovery or state lock that is not itself blocked has a next step of its own. */
  lemma HolderCanMove(p: Policy, w: World, pid: Pid, lock: Lock)
    requires Inv(p, w) && pid in w.procs && !Blocked(w, pid) && lock in PcHolds(w.procs[pid].pc)
    ensures CanMove(p, w, pid)
  {
    hide Inv, WriteThen, EraseStep, MutateStep, ObserveStep, TryRunnerStep, TookStep, GiveUpStep, StartStep;
    OneProc(p, w, pid);
    var pc := w.procs[pid].pc;
    if pc.Closing? { assert Step(p, w, pid, Release(lock)).Some?; }
    else if pc.Writing? && pc.written < pc.accepted { assert Step(p, w, pid, WriteSome(1)).Some?; }
    else { assert Step(p, w, pid, Advance).Some?; }
  }

  /** Nobody is stuck for good: behind every blocked process, at most two waits away, stands one that
      holds the lock in question and can move. */
  lemma BlockedBehindMover(p: Policy, w: World, pid: Pid) returns (q: Pid)
    requires Inv(p, w) && pid in w.procs && Blocked(w, pid)
    ensures CanMove(p, w, q)
    ensures WaitsOn(w, pid, q) || exists m :: WaitsOn(w, pid, m) && WaitsOn(w, m, q)
  {
    hide Inv, Step, PcHolds;
    var lock := WaitsFor(w.procs[pid].pc).value;
    OwnerExists(p, w, lock);
    q := w.owner[lock];
    assert WaitsOn(w, pid, q);
    WaitingGoesDown(p, w, pid, q);
    if Blocked(w, q) {
      var m := q;
      lock := WaitsFor(w.procs[m].pc).value;
      OwnerExists(p, w, lock);
      q := w.owner[lock];
      assert WaitsOn(w, m, q);
      WaitingGoesDown(p, w, m, q);
    }
    HolderCanMove(p, w, q, lock);
  }

  // ---------------------------------------------------------------- recovery

  /** Runs `pid` alone through the given actions. */
  ghost function Alone(p: Policy, w: World, pid: Pid, actions: seq<Action>): Option<World>
    decreases |actions|
  {
    if actions == [] then Some(w)
    else
      var v := Step(p, w, pid, actions[0]);
      if v.Some? then Alone(p, v.value, pid, actions[1..]) else None
  }

  lemma AloneFour(p: Policy, w: World, pid: Pid, w1: World, w2: World, w3: World, w4: World)
    requires Step(p, w, pid, Advance) == Some(w1) && Step(p, w1, pid, Advance) == Some(w2)
    requires Step(p, w2, pid, Advance) == Some(w3) && Step(p, w3, pid, Advance) == Some(w4)
    ensures Alone(p, w, pid, RECOVER) == Some(w4)
  {
    hide Step;
    var two, three := [Advance, Advance], [Advance, Advance, Advance];
    assert two[1..] == [Advance] && three[1..] == two && RECOVER[1..] == three && two[1..][1..] == [];
    assert Alone(p, w3, pid, two[1..]) == Some(w4);
    assert Alone(p, w2, pid, two) == Some(w4);
    assert Alone(p, w1, pid, three) == Some(w4);
    assert RECOVER[0] == Advance && Alone(p, w1, pid, RECOVER[1..]) == Some(w4);
  }

  const RECOVER: seq<Action> := [Advance, Advance, Advance, Advance]

  /** The reconciler's write finds the job running and records the loss. */
  lemma LostWritten(p: Policy, w: World, pid: Pid)
    requires Inv(p, w) && pid in w.procs && w.procs[pid].pc.WriteLost? && StatusOf(w, Running)
    ensures var v := WriteThen(p, w, pid, ClearLost);
      && Step(p, w, pid, Advance) == Some(v) && StatusOf(v, RunnerLost)
      && v.dir.file == Some(RunnerLostState(w.dir.file.value, w.dir.clock))
      && Extends(w.dir.file.value, v.dir.file.value) && v.procs[pid].pc == ClearLost && pid in v.procs
  {
    hide Inv, Extends, Valid, PublishGuard, MutateStep, ObserveStep, TryRunnerStep, TookStep;
    SomeCandidate(p, w, pid, ClearLost);
  }

  /** Where a reconciler stands once it holds `state.lock`. */
  function LostWorld(w: World, pid: Pid): World
    requires pid in w.procs && w.procs[pid].pc.Took?
  {
    Acquire(if w.procs[pid].pc.seen then w.(orphaned := false) else w.(dir := w.dir.(intent := true), late := 0),
            pid, StateLock, WriteLost)
  }

  lemma ReachesLostWrite(p: Policy, w: World, pid: Pid)
    requires Inv(p, w) && pid in w.procs && w.procs[pid].pc.Took? && w.procs[pid].pc.running
    requires w.dir.file.Some? && StateLock !in w.owner
    ensures Step(p, w, pid, Advance) == Some(TookStep(w, pid))
    ensures Step(p, TookStep(w, pid), pid, Advance) == Some(LostWorld(w, pid))
    ensures Inv(p, LostWorld(w, pid))
  {
    hide Inv, MutateStep, WriteThen, CommitAppend, EraseStep, ObserveStep, TryRunnerStep;
    StepInv(p, w, pid, Advance);
    var base := if w.procs[pid].pc.seen then w.(orphaned := false) else w.(dir := w.dir.(intent := true), late := 0);
    GotoThenAcquire(base, pid, AwaitStateLost, StateLock, WriteLost);
    StepInv(p, TookStep(w, pid), pid, Advance);
  }

  lemma GotoThenAcquire(w: World, pid: Pid, pc: PC, lock: Lock, next: PC)
    requires pid in w.procs
    ensures Acquire(Goto(w, pid, pc), pid, lock, next) == Acquire(w, pid, lock, next)
  {
    assert Goto(Goto(w, pid, pc), pid, next).procs == Goto(w, pid, next).procs;
  }

  lemma ClearedAlone(p: Policy, w: World, pid: Pid)
    requires Inv(p, w) && pid in w.procs && w.procs[pid].pc.ClearLost?
    ensures Step(p, w, pid, Advance).Some?
    ensures var v := Step(p, w, pid, Advance).value;
      v.dir == w.dir.(intent := false) && !v.orphaned
  {
    hide Inv, MutateStep, WriteThen, CommitAppend, EraseStep, ObserveStep, TryRunnerStep, TookStep;
    OneProc(p, w, pid);
  }

  /** From every reachable world, whatever crashed before: a reconciler that got `runner.lock` and can
      get `state.lock` ends in a terminal state without an intent, and never replaces a result. */
  lemma ReconcileRecovers(p: Policy, w: World, pid: Pid)
    requires Inv(p, w) && pid in w.procs && w.procs[pid].pc.Took? && w.dir.file.Some? && StateLock !in w.owner
    ensures var end := Alone(p, w, pid, if w.procs[pid].pc.running then RECOVER else [Advance]);
      && end.Some? && end.value.dir.file.Some? && end.value.dir.file.value.job.status != Running
      && !end.value.dir.intent && !end.value.orphaned
      && Extends(w.dir.file.value, end.value.dir.file.value)
      && end.value.dir.file == Some(Reconciled(w.dir.file.value, w.dir.clock))
  {
    hide Inv, Extends, Valid, Step, WriteThen, TookStep, LostWorld;
    OneProc(p, w, pid);
    ExtendsRefl(w.dir.file.value);
    if w.procs[pid].pc.running {
      ReachesLostWrite(p, w, pid);
      LostWorldFacts(w, pid);
      var w2 := LostWorld(w, pid);
      LostWritten(p, w2, pid);
      var w3 := WriteThen(p, w2, pid, ClearLost);
      StepInv(p, w2, pid, Advance);
      ClearedAlone(p, w3, pid);
      AloneFour(p, w, pid, TookStep(w, pid), w2, w3, Step(p, w3, pid, Advance).value);
    } else {
      TookClears(p, w, pid);
      assert Alone(p, w, pid, [Advance]) == Some(TookStep(w, pid)) by { assert [Advance][1..] == []; }
    }
  }

  lemma LostWorldFacts(w: World, pid: Pid)
    requires pid in w.procs && w.procs[pid].pc.Took?
    ensures pid in LostWorld(w, pid).procs && LostWorld(w, pid).procs[pid].pc == WriteLost
    ensures LostWorld(w, pid).dir.file == w.dir.file && LostWorld(w, pid).dir.clock == w.dir.clock
  {}

  lemma TookClears(p: Policy, w: World, pid: Pid)
    requires pid in w.procs && w.procs[pid].pc.Took? && w.dir.file.Some? && !w.procs[pid].pc.running
    ensures Step(p, w, pid, Advance) == Some(TookStep(w, pid))
    ensures TookStep(w, pid).dir == w.dir.(intent := false) && !TookStep(w, pid).orphaned
  {
    hide MutateStep, WriteThen, CommitAppend, EraseStep, ObserveStep, TryRunnerStep;
  }

  /** The way to `runner.lock` when every lock is free, as it is after the others died. */
  const APPROACH: seq<Action> := [StartReconcile(None), Advance, Advance, Advance]

  /** Where a reconciler stands once it holds `recovery.lock` and `runner.lock`. */
  function TookWorld(w: World, pid: Pid): World
    requires pid in w.procs && w.dir.file.Some?
  {
    Acquire(Acquire(w, pid, RecoveryLock, ReadState(None)), pid, RunnerLock,
            Took(w.dir.file.value.job.status == Running, w.dir.intent))
  }

  lemma ApproachSteps(p: Policy, w: World, pid: Pid)
    requires pid in w.procs && w.procs[pid].pc.Idle? && !w.procs[pid].lease && w.owner == map[]
    requires w.dir.file.Some? && (w.dir.file.value.job.status == Running || w.dir.intent)
    ensures var w1 := Goto(w, pid, AwaitRecovery(None));
      var w2 := Acquire(w1, pid, RecoveryLock, ReadState(None));
      var w3 := Goto(w2, pid, TryRunner(None, w.dir.file.value.job.status == Running, w.dir.intent));
      && Step(p, w, pid, StartReconcile(None)) == Some(w1)
      && Step(p, w1, pid, Advance) == Some(w2)
      && Step(p, w2, pid, Advance) == Some(w3)
      && Step(p, w3, pid, Advance) == Some(TookWorld(w, pid))
  {
    hide MutateStep, WriteThen, CommitAppend, EraseStep, ObserveStep, TookStep;
    var w1 := Goto(w, pid, AwaitRecovery(None));
    var w2 := Acquire(w1, pid, RecoveryLock, ReadState(None));
    var next := Took(w.dir.file.value.job.status == Running, w.dir.intent);
    GotoThenAcquire(w, pid, AwaitRecovery(None), RecoveryLock, ReadState(None));
    GotoThenAcquire(w2, pid, TryRunner(None, w.dir.file.value.job.status == Running, w.dir.intent), RunnerLock, next);
  }

  lemma ApproachTakes(p: Policy, w: World, pid: Pid)
    requires Inv(p, w) && pid in w.procs && w.procs[pid].pc.Idle? && !w.procs[pid].lease && w.owner == map[]
    requires w.dir.file.Some? && (w.dir.file.value.job.status == Running || w.dir.intent)
    ensures Alone(p, w, pid, APPROACH) == Some(TookWorld(w, pid)) && Inv(p, TookWorld(w, pid))
  {
    hide Inv, Step;
    ApproachSteps(p, w, pid);
    var w1 := Goto(w, pid, AwaitRecovery(None));
    var w2 := Acquire(w1, pid, RecoveryLock, ReadState(None));
    var w3 := Goto(w2, pid, TryRunner(None, w.dir.file.value.job.status == Running, w.dir.intent));
    StepInv(p, w, pid, StartReconcile(None));
    StepInv(p, w1, pid, Advance);
    StepInv(p, w2, pid, Advance);
    StepInv(p, w3, pid, Advance);
    var two := [Advance, Advance];
    assert two[1..] == [Advance] && [Advance][1..] == [] && APPROACH[1..][1..] == two;
    assert Alone(p, w3, pid, [Advance]) == Some(TookWorld(w, pid));
    assert Alone(p, w2, pid, two) == Some(TookWorld(w, pid));
    assert Alone(p, w1, pid, APPROACH[1..]) == Some(TookWorld(w, pid));
  }

  /** After any history of crashes that left every lock free, one undisturbed reconcile of a job that is
      running, or still marked, from its start to its last write: a terminal state, no intent, no result replaced. */
  lemma CrashedJobIsRecovered(p: Policy, worlds: seq<World>, moves: seq<Move>, k: nat, pid: Pid)
    requires IsRun(p, worlds, moves) && k < |worlds| && worlds[k].owner == map[]
    requires pid in worlds[k].procs && worlds[k].procs[pid].pc.Idle?
    requires worlds[k].dir.file.Some? && (worlds[k].dir.file.value.job.status == Running || worlds[k].dir.intent)
    ensures var w := worlds[k];
      var took := Alone(p, w, pid, APPROACH);
      && took.Some?
      && var end := Alone(p, took.value, pid, if w.dir.file.value.job.status == Running then RECOVER else [Advance]);
        && end.Some? && end.value.dir.file.Some? && !end.value.dir.intent
        && Extends(w.dir.file.value, end.value.dir.file.value)
        && end.value.dir.file == Some(Reconciled(w.dir.file.value, w.dir.clock))
  {
    hide Inv, Step, Extends, TookWorld;
    RunInv(p, worlds, moves, k);
    var w := worlds[k];
    OneProc(p, w, pid);
    ApproachTakes(p, w, pid);
    TookWorldFacts(w, pid);
    ReconcileRecovers(p, TookWorld(w, pid), pid);
  }

  lemma TookWorldFacts(w: World, pid: Pid)
    requires pid in w.procs && w.dir.file.Some? && w.owner == map[]
    ensures var v := TookWorld(w, pid);
      && pid in v.procs && v.procs[pid].pc == Took(w.dir.file.value.job.status == Running, w.dir.intent)
      && v.dir == w.dir && StateLock !in v.owner
  {}

  // ---------------------------------------------------------------- lock-free readers and the output limit

  /** Whatever is written meanwhile, a reader whose snapshot says c bytes gets exactly the first c bytes
      of the concatenated appends, cut at the limit (from its start cursor on). */
  lemma ReaderSeesExactPrefix(p: Policy, worlds: seq<World>, moves: seq<Move>, k: nat, pid: Pid)
    requires IsRun(p, worlds, moves) && k < |worlds| && pid in worlds[k].procs && worlds[k].procs[pid].pc.Respond?
    ensures var pc := worlds[k].procs[pid].pc;
      && 0 <= pc.snap.job.outputLimit && pc.start <= pc.snap.job.captured
      && var accepted := Truncated(worlds[k].dir.fed, pc.snap.job.outputLimit);
      && pc.snap.job.captured <= |accepted|
      && pc.bytes == accepted[pc.start..pc.snap.job.captured]
  {
    RunInv(p, worlds, moves, k);
    OneProc(p, worlds[k], pid);
  }

  /** The capture count is the total handed in, cut at the limit; it stands at the limit exactly when the
      total reached it, and an `output_limit` job always stands there. */
  lemma CapturedIsTruncatedTotal(p: Policy, worlds: seq<World>, moves: seq<Move>, k: nat)
    requires IsRun(p, worlds, moves) && k < |worlds| && worlds[k].dir.file.Some?
    ensures var job, total := worlds[k].dir.file.value.job, |worlds[k].dir.fed|;
      && job.captured == Min(total, job.outputLimit)
      && (job.captured == job.outputLimit <==> job.outputLimit <= total)
      && (job.status == OutputLimit ==> job.captured == job.outputLimit)
  {
    RunInv(p, worlds, moves, k);
    var d := worlds[k].dir;
    assert |d.log[..d.file.value.job.captured]| == d.file.value.job.captured;
  }
}
