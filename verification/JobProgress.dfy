/** Nobody waits for ever for lack of a move: holders let go of their locks in a bounded number of moves of
    their own, and from every reachable world the intent marker can be got out of the way. */
module JobProgress {
  import opened JobState
  import opened JobProtocol
  import opened JobInvariant
  import opened JobTheorems

  // ---------------------------------------------------------------- a holder's own moves

  /** How many moves of its own a process is away from a position that holds no lock, at most. */
  function Left(pc: PC): nat {
    match pc
    case CheckIntent(_) => 5
    case Mutate(_) => 4
    case Writing(_, accepted, written) => if written < accepted then 3 else 2
    case ReadState(_) => 9
    case TryRunner(_, _, _) => 8
    case Took(_, _) => 7
    case AwaitStateLost => 6
    case WriteLost => 5
    case ClearLost => 4
    case AwaitStateActive(_) => 4
    case CancelActive(_) => 3
    case AwaitStateErase(_) => 4
    case Erase(_) => 3
    case CreateIntent(_) => 7
    case AwaitStatePublish(_) => 6
    case WriteTerminal(_) => 5
    case ClearIntent => 4
    case Closing(held) => |held|
    case _ => 0
  }

  /** What a lock holder does next. */
  function OwnMove(pc: PC): Action {
    if pc.Closing? then
      Release(if StateLock in pc.held then StateLock else if RunnerLock in pc.held then RunnerLock else RecoveryLock)
    else if pc.Writing? && pc.written < pc.accepted then WriteSome(pc.accepted - pc.written)
    else Advance
  }

  /** Neither a crash nor a surrender. */
  predicate Orderly(a: Action) { !a.Crash? && !a.GiveUp? && !a.Exit? }

  lemma LeftOnlyWhileHolding(pc: PC)
    ensures PcHolds(pc) == {} <==> Left(pc) == 0
    ensures PcHolds(pc) != {} && WaitsFor(pc).Some? ==> WaitsFor(pc) == Some(StateLock)
    ensures WaitsFor(pc) == Some(StateLock) ==> StateLock !in PcHolds(pc)
    ensures OwnsIntent(pc) ==> PcHolds(pc) != {}
  {
    if pc.Closing? && pc.held != {} {
      var lock :| lock in pc.held;
      assert |pc.held - {lock}| == |pc.held| - 1;
    }
  }

  lemma ReleaseMoves(p: Policy, w: World, pid: Pid)
    requires pid in w.procs && w.procs[pid].pc.Closing? && PcHolds(w.procs[pid].pc) != {}
    ensures var next := Step(p, w, pid, OwnMove(w.procs[pid].pc));
      next.Some? && Nearer(w, next.value, pid)
  {
    var held := w.procs[pid].pc.held;
    var some :| some in held;
    assert some == StateLock || some == RunnerLock || some == RecoveryLock;
    var lock := OwnMove(w.procs[pid].pc).lock;
    assert lock in held;
    assert |held - {lock}| == |held| - 1;
  }

  lemma WriteMoves(p: Policy, w: World, pid: Pid)
    requires Inv(p, w) && pid in w.procs && w.procs[pid].pc.Writing?
    ensures var next := Step(p, w, pid, OwnMove(w.procs[pid].pc));
      next.Some? && Nearer(w, next.value, pid)
  {
    hide Inv, Overwrite, Valid;
    OneProc(p, w, pid);
    AppendAccepted(p, w, pid);
  }

  /** The step left `pid` at a position with fewer moves left, and nobody else's. */
  ghost predicate Nearer(w: World, v: World, pid: Pid) {
    pid in w.procs && pid in v.procs && OnlyMoved(w, v, pid) && Left(v.procs[pid].pc) < Left(w.procs[pid].pc)
  }

  lemma GotoIsNearer(w: World, pid: Pid, pc: PC)
    requires pid in w.procs && Left(pc) < Left(w.procs[pid].pc)
    ensures forall v: World :: v.procs == Goto(w, pid, pc).procs ==> Nearer(w, v, pid)
  {}

  lemma MutateMoves(p: Policy, w: World, pid: Pid)
    requires pid in w.procs && w.procs[pid].pc.Mutate?
    ensures Nearer(w, MutateStep(p, w, pid), pid)
  {
    hide WriteThen;
    WriteMovesOne(p, w, pid, Closing({StateLock}));
    GotoIsNearer(w, pid, Closing({StateLock}));
    if w.procs[pid].pc.op.Append? { AppendMoves(p, w, pid); }
  }

  lemma AppendMoves(p: Policy, w: World, pid: Pid)
    requires pid in w.procs && w.procs[pid].pc.Mutate? && w.procs[pid].pc.op.Append?
    ensures Nearer(w, MutateStep(p, w, pid), pid)
  {
    hide Nearer;
    GotoIsNearer(w, pid, Closing({StateLock}));
    forall accepted: nat ensures Left(Writing(w.procs[pid].pc.op.data, accepted, 0)) < 4 {}
    var v := MutateStep(p, w, pid);
    if v.procs[pid].pc.Writing? { GotoIsNearer(w, pid, v.procs[pid].pc); } else { NoteIsNearer(w, v, pid); }
  }

  lemma NoteIsNearer(w: World, v: World, pid: Pid)
    requires pid in w.procs && w.procs[pid].pc.Mutate?
    requires exists after :: v.procs == w.procs[pid := after] && after.pc == Closing({StateLock})
    ensures Nearer(w, v, pid)
  {}

  lemma WriteMovesOne(p: Policy, w: World, pid: Pid, pc: PC)
    requires pid in w.procs
    ensures WriteThen(p, w, pid, pc).procs == Goto(w, pid, pc).procs
  {
    hide Candidate, Valid, PublishGuard;
  }

  /** A lock holder that is not blocked has a next move, and every such move brings it nearer to letting go. */
  lemma OwnMoveWorks(p: Policy, w: World, pid: Pid)
    requires Inv(p, w) && pid in w.procs && PcHolds(w.procs[pid].pc) != {} && !Blocked(w, pid)
    ensures var next := Step(p, w, pid, OwnMove(w.procs[pid].pc));
      next.Some? && Nearer(w, next.value, pid)
  {
    hide Inv, WriteThen, MutateStep, CommitAppend, Nearer, AdvanceStep, Left;
    var pc := w.procs[pid].pc;
    if pc.Closing? { ReleaseMoves(p, w, pid); }
    else if pc.Writing? { WriteMoves(p, w, pid); }
    else if pc.Mutate? { MutateMoves(p, w, pid); AdvanceMutates(p, w, pid); }
    else if LockPc(pc) { LockMoves(p, w, pid); }
    else if pc.CancelActive? || pc.WriteLost? || pc.WriteTerminal? { PublishMoves(p, w, pid); }
    else if pc.Took? || pc.CreateIntent? || pc.ClearLost? || pc.ClearIntent? || pc.Erase? { MarkerMoves(p, w, pid); }
    else if pc.TryRunner? { TryMoves(p, w, pid); }
    else { OtherMoves(p, w, pid); }
  }

  lemma LockMoves(p: Policy, w: World, pid: Pid)
    requires pid in w.procs && LockPc(w.procs[pid].pc) && !Blocked(w, pid) && PcHolds(w.procs[pid].pc) != {}
    ensures AdvanceStep(p, w, pid).Some? && Nearer(w, AdvanceStep(p, w, pid).value, pid)
  {
    hide WriteThen, MutateStep, CommitAppend, EraseStep, ObserveStep, TryRunnerStep, TookStep, Nearer;
    GotoIsNearer(w, pid, AfterLock(w.procs[pid].pc));
  }

  lemma MarkerMoves(p: Policy, w: World, pid: Pid)
    requires pid in w.procs
    requires var pc := w.procs[pid].pc; pc.Took? || pc.CreateIntent? || pc.ClearLost? || pc.ClearIntent? || pc.Erase?
    ensures AdvanceStep(p, w, pid).Some? && Nearer(w, AdvanceStep(p, w, pid).value, pid)
  {
    hide AdvanceStep, Nearer;
    var pc := w.procs[pid].pc;
    if pc.Took? { TookMoves(p, w, pid); }
    else if pc.CreateIntent? { CreateMoves(p, w, pid); }
    else if pc.ClearLost? { ClearLostMoves(p, w, pid); }
    else if pc.ClearIntent? { ClearIntentMoves(p, w, pid); }
    else { EraseMoves(p, w, pid); }
  }

  lemma TookMoves(p: Policy, w: World, pid: Pid)
    requires pid in w.procs && w.procs[pid].pc.Took?
    ensures AdvanceStep(p, w, pid).Some? && Nearer(w, AdvanceStep(p, w, pid).value, pid)
  {
    hide WriteThen, MutateStep, CommitAppend, ObserveStep, TryRunnerStep, EraseStep, Nearer;
    ClosingIsNear(w.procs[pid].pc);
    GotoIsNearer(w, pid, AdvanceStep(p, w, pid).value.procs[pid].pc);
  }

  lemma CreateMoves(p: Policy, w: World, pid: Pid)
    requires pid in w.procs && w.procs[pid].pc.CreateIntent?
    ensures AdvanceStep(p, w, pid).Some? && Nearer(w, AdvanceStep(p, w, pid).value, pid)
  {
    hide WriteThen, MutateStep, CommitAppend, ObserveStep, TryRunnerStep, EraseStep, TookStep, Nearer;
    ClosingIsNear(w.procs[pid].pc);
    GotoIsNearer(w, pid, AdvanceStep(p, w, pid).value.procs[pid].pc);
  }

  lemma ClearLostMoves(p: Policy, w: World, pid: Pid)
    requires pid in w.procs && w.procs[pid].pc.ClearLost?
    ensures AdvanceStep(p, w, pid).Some? && Nearer(w, AdvanceStep(p, w, pid).value, pid)
  {
    hide WriteThen, MutateStep, CommitAppend, ObserveStep, TryRunnerStep, EraseStep, TookStep, Nearer;
    ClosingIsNear(w.procs[pid].pc);
    GotoIsNearer(w, pid, AdvanceStep(p, w, pid).value.procs[pid].pc);
  }

  lemma ClearIntentMoves(p: Policy, w: World, pid: Pid)
    requires pid in w.procs && w.procs[pid].pc.ClearIntent?
    ensures AdvanceStep(p, w, pid).Some? && Nearer(w, AdvanceStep(p, w, pid).value, pid)
  {
    hide WriteThen, MutateStep, CommitAppend, ObserveStep, TryRunnerStep, EraseStep, TookStep, Nearer;
    ClosingIsNear(w.procs[pid].pc);
    GotoIsNearer(w, pid, AdvanceStep(p, w, pid).value.procs[pid].pc);
  }

  lemma EraseMoves(p: Policy, w: World, pid: Pid)
    requires pid in w.procs && w.procs[pid].pc.Erase?
    ensures AdvanceStep(p, w, pid).Some? && Nearer(w, AdvanceStep(p, w, pid).value, pid)
  {
    hide WriteThen, MutateStep, CommitAppend, ObserveStep, TryRunnerStep, TookStep, Nearer;
    ClosingIsNear(w.procs[pid].pc);
    GotoIsNearer(w, pid, AdvanceStep(p, w, pid).value.procs[pid].pc);
  }

  lemma ClosingIsNear(pc: PC)
    requires pc.Took? || pc.CreateIntent? || pc.ClearLost? || pc.ClearIntent? || pc.Erase?
    ensures Left(Closing({RunnerLock, StateLock})) < Left(pc) && Left(Closing({RecoveryLock})) < Left(pc)
    ensures Left(Closing({RunnerLock, RecoveryLock})) < Left(pc)
    ensures pc.ClearLost? ==> Left(Closing({StateLock, RunnerLock, RecoveryLock})) < Left(pc)
    ensures pc.ClearIntent? ==> Left(Closing({StateLock, RecoveryLock, RunnerLock})) < Left(pc)
  {}

  lemma AdvanceMutates(p: Policy, w: World, pid: Pid)
    requires pid in w.procs && w.procs[pid].pc.Mutate?
    ensures AdvanceStep(p, w, pid) == Some(MutateStep(p, w, pid))
  {
    hide WriteThen, MutateStep, CommitAppend, ObserveStep, TookStep, EraseStep, TryRunnerStep;
  }

  lemma PublishMoves(p: Policy, w: World, pid: Pid)
    requires pid in w.procs
    requires w.procs[pid].pc.CancelActive? || w.procs[pid].pc.WriteLost? || w.procs[pid].pc.WriteTerminal?
    ensures AdvanceStep(p, w, pid).Some? && Nearer(w, AdvanceStep(p, w, pid).value, pid)
  {
    hide WriteThen, MutateStep, CommitAppend, ObserveStep, TookStep, EraseStep, TryRunnerStep, Nearer;
    var pc := w.procs[pid].pc;
    var next :=
      if pc.CancelActive? then Closing({StateLock, RecoveryLock}) else if pc.WriteLost? then ClearLost else ClearIntent;
    WriteMovesOne(p, w, pid, next);
    GotoIsNearer(w, pid, next);
  }

  lemma TryMoves(p: Policy, w: World, pid: Pid)
    requires pid in w.procs && w.procs[pid].pc.TryRunner?
    ensures AdvanceStep(p, w, pid).Some? && Nearer(w, AdvanceStep(p, w, pid).value, pid)
  {
    hide WriteThen, MutateStep, CommitAppend, ObserveStep, TookStep, EraseStep, Nearer, Left;
    var pc := w.procs[pid].pc;
    var next := AdvanceStep(p, w, pid).value.procs[pid].pc;
    assert next == Took(pc.running, pc.seen) || next.AwaitStateActive? || next == Closing({RecoveryLock});
    TryLeft(pc, next);
    GotoIsNearer(w, pid, next);
  }

  lemma TryLeft(pc: PC, next: PC)
    requires pc.TryRunner? && (next.Took? || next.AwaitStateActive? || next == Closing({RecoveryLock}))
    ensures Left(next) < Left(pc)
  {}

  lemma OtherMoves(p: Policy, w: World, pid: Pid)
    requires pid in w.procs && (w.procs[pid].pc.CheckIntent? || w.procs[pid].pc.ReadState?)
    ensures AdvanceStep(p, w, pid).Some? && Nearer(w, AdvanceStep(p, w, pid).value, pid)
  {
    hide WriteThen, MutateStep, CommitAppend, ObserveStep, TookStep, EraseStep, TryRunnerStep, Nearer;
    GotoIsNearer(w, pid, AdvanceStep(p, w, pid).value.procs[pid].pc);
  }

  // ---------------------------------------------------------------- a holder alone

  ghost predicate StateLockFreeFor(w: World, pid: Pid) { StateLock in w.owner ==> w.owner[StateLock] == pid }

  ghost predicate RunnerLockElsewhere(w: World, pid: Pid) { RunnerLock in w.owner && w.owner[RunnerLock] != pid }

  /** What a process that moves alone leaves alone. */
  ghost predicate Beside(w: World, v: World, pid: Pid) {
    && OnlyMoved(w, v, pid) && pid in v.procs && v.dir.clock == w.dir.clock
    && (StateLockFreeFor(w, pid) ==> StateLockFreeFor(v, pid))
    && (RunnerLockElsewhere(w, pid) ==> RunnerLockElsewhere(v, pid))
    && (RunnerLockElsewhere(w, pid) && w.dir.file.Some? ==>
          v.dir.file.Some? && Extends(w.dir.file.value, v.dir.file.value))
  }

  lemma BesideTrans(w: World, v: World, u: World, pid: Pid)
    requires pid in w.procs && Beside(w, v, pid) && Beside(v, u, pid)
    ensures Beside(w, u, pid)
  {
    hide Extends;
    if RunnerLockElsewhere(w, pid) && w.dir.file.Some? {
      ExtendsTransitive(w.dir.file.value, v.dir.file.value, u.dir.file.value);
    }
  }

  lemma BesideSelf(w: World, pid: Pid)
    requires pid in w.procs
    ensures Beside(w, w, pid)
  {
    if w.dir.file.Some? { ExtendsRefl(w.dir.file.value); }
  }

  lemma OwnMoveKeepsTime(p: Policy, w: World, pid: Pid)
    requires pid in w.procs && Step(p, w, pid, OwnMove(w.procs[pid].pc)).Some?
    ensures Step(p, w, pid, OwnMove(w.procs[pid].pc)).value.dir.clock == w.dir.clock
  {
    hide Candidate, Valid, PublishGuard, Overwrite;
  }

  /** The locks of the others are theirs as before. */
  lemma OthersKeepLocks(p: Policy, w: World, v: World, pid: Pid)
    requires Inv(p, w) && Inv(p, v) && pid in w.procs && OnlyMoved(w, v, pid)
    ensures forall l :: l in v.owner && v.owner[l] != pid ==> l in w.owner && w.owner[l] == v.owner[l]
    ensures forall l :: l in w.owner && w.owner[l] != pid ==> l in v.owner && v.owner[l] == w.owner[l]
  {
    hide Held, FileOk, ProcsOk, LateOk, CleanOk;
    forall l | l in v.owner && v.owner[l] != pid ensures l in w.owner && w.owner[l] == v.owner[l] {
      assert l in Held(v.procs[v.owner[l]]);
    }
    forall l | l in w.owner && w.owner[l] != pid ensures l in v.owner && v.owner[l] == w.owner[l] {
      assert l in Held(w.procs[w.owner[l]]);
    }
  }

  lemma OwnMoveBeside(p: Policy, w: World, pid: Pid)
    requires Inv(p, w) && pid in w.procs && PcHolds(w.procs[pid].pc) != {} && !Blocked(w, pid)
    ensures var next := Step(p, w, pid, OwnMove(w.procs[pid].pc));
      && next.Some? && Inv(p, next.value) && Nearer(w, next.value, pid) && Beside(w, next.value, pid)
  {
    hide Inv, Step, Extends, Left, PcHolds;
    OwnMoveWorks(p, w, pid);
    var a := OwnMove(w.procs[pid].pc);
    var v := Step(p, w, pid, a).value;
    StepInv(p, w, pid, a);
    OwnMoveKeepsTime(p, w, pid);
    OthersKeepLocks(p, w, v, pid);
    ChainStep(p, w, pid, a);
    if w.dir.file.Some? && v.dir.file.None? && RunnerLockElsewhere(w, pid) {
      RemovalNeverErasesRunningJob(p, w, pid, a, pid);
      EraserHoldsRunner(p, w, pid);
    }
  }

  lemma EraserHoldsRunner(p: Policy, w: World, pid: Pid)
    requires Inv(p, w) && pid in w.procs && w.procs[pid].pc.Erase?
    ensures !RunnerLockElsewhere(w, pid)
  {
    HeldOwned(p, w, pid);
  }

  /** Alone, a lock holder that has or can get `state.lock` lets go of all its locks, within its moves left. */
  lemma {:induction false} RunsFree(p: Policy, w: World, pid: Pid) returns (actions: seq<Action>, v: World)
    requires Inv(p, w) && pid in w.procs && StateLockFreeFor(w, pid)
    ensures Alone(p, w, pid, actions) == Some(v) && |actions| <= Left(w.procs[pid].pc)
    ensures forall a :: a in actions ==> Orderly(a)
    ensures Inv(p, v) && Beside(w, v, pid) && PcHolds(v.procs[pid].pc) == {}
    decreases Left(w.procs[pid].pc)
  {
    hide Inv, Step, Left, PcHolds, Beside, Extends;
    LeftOnlyWhileHolding(w.procs[pid].pc);
    if PcHolds(w.procs[pid].pc) == {} {
      actions, v := [], w;
      BesideSelf(w, pid);
    } else {
      NotBlocked(p, w, pid);
      OwnMoveBeside(p, w, pid);
      var a := OwnMove(w.procs[pid].pc);
      var u := Step(p, w, pid, a).value;
      NearerFacts(w, u, pid);
      var rest;
      rest, v := RunsFree(p, u, pid);
      actions := [a] + rest;
      assert actions[1..] == rest;
      BesideTrans(w, u, v, pid);
    }
  }

  lemma NearerFacts(w: World, u: World, pid: Pid)
    requires Nearer(w, u, pid) && Beside(w, u, pid)
    ensures pid in u.procs && Left(u.procs[pid].pc) < Left(w.procs[pid].pc)
    ensures StateLockFreeFor(w, pid) ==> StateLockFreeFor(u, pid)
  {}

  lemma NotBlocked(p: Policy, w: World, pid: Pid)
    requires Inv(p, w) && pid in w.procs && StateLockFreeFor(w, pid) && PcHolds(w.procs[pid].pc) != {}
    ensures !Blocked(w, pid)
  {
    hide PcHolds, WaitsFor, FileOk, ProcsOk, LateOk, CleanOk;
    LeftOnlyWhileHolding(w.procs[pid].pc);
    assert StateLock in w.owner ==> StateLock in Held(w.procs[w.owner[StateLock]]);
  }

  /** Whoever holds `state.lock` lets go of it within five moves of its own, whatever the others hold. */
  lemma StateLockIsReleased(p: Policy, w: World) returns (actions: seq<Action>, v: World)
    requires Inv(p, w) && StateLock in w.owner
    ensures Alone(p, w, w.owner[StateLock], actions) == Some(v) && |actions| <= 5
    ensures forall a :: a in actions ==> Orderly(a)
    ensures Inv(p, v) && StateLock !in v.owner && Beside(w, v, w.owner[StateLock])
  {
    hide Inv, Alone, Beside, Extends;
    var q := w.owner[StateLock];
    OwnerExists(p, w, StateLock);
    actions, v := RunsFree(p, w, q);
    StateHolderIsNear(w.procs[q]);
    FreeOfState(p, w, v, q);
  }

  lemma StateHolderIsNear(proc: Proc)
    requires StateLock in Held(proc)
    ensures Left(proc.pc) <= 5
  {
    if proc.pc.Closing? { LocksAreThree(proc.pc.held); }
  }

  lemma LocksAreThree(held: set<Lock>)
    ensures |held| <= 3
  {
    var all := {RunnerLock, RecoveryLock, StateLock};
    forall l: Lock | l in held ensures l in all {
      assert l.RunnerLock? || l.RecoveryLock? || l.StateLock?;
    }
    SubsetSize(held, all);
  }

  lemma {:induction false} SubsetSize<T>(a: set<T>, b: set<T>)
    requires a <= b
    ensures |a| <= |b|
  {
    if a != {} {
      var x :| x in a;
      SubsetSize(a - {x}, b - {x});
    }
  }

  lemma StateOwnerHolds(p: Policy, v: World)
    requires Inv(p, v) && StateLock in v.owner
    ensures v.owner[StateLock] in v.procs && StateLock in PcHolds(v.procs[v.owner[StateLock]].pc)
  {
    hide PcHolds, FileOk, ProcsOk, LateOk, CleanOk;
    assert StateLock in Held(v.procs[v.owner[StateLock]]);
  }

  lemma FreeOfState(p: Policy, w: World, v: World, q: Pid)
    requires Inv(p, v) && q in w.procs && Beside(w, v, q) && StateLockFreeFor(w, q) && PcHolds(v.procs[q].pc) == {}
    ensures StateLock !in v.owner
  {
    hide Inv, PcHolds;
    if StateLock in v.owner {
      StateOwnerHolds(p, v);
      assert false;
    }
  }

  // ---------------------------------------------------------------- several processes, one after the other

  /** The world after the given moves; None where one is not possible. */
  ghost function Play(p: Policy, w: World, moves: seq<Move>): Option<World>
    decreases |moves|
  {
    if moves == [] then Some(w)
    else
      var v := Step(p, w, moves[0].pid, moves[0].action);
      if v.Some? then Play(p, v.value, moves[1..]) else None
  }

  function By(pid: Pid, actions: seq<Action>): seq<Move> {
    if actions == [] then [] else [Move(pid, actions[0])] + By(pid, actions[1..])
  }

  lemma {:induction false} AloneIsPlay(p: Policy, w: World, pid: Pid, actions: seq<Action>)
    ensures Play(p, w, By(pid, actions)) == Alone(p, w, pid, actions)
    ensures forall m :: m in By(pid, actions) ==> m.pid == pid && m.action in actions
    decreases |actions|
  {
    hide Step;
    if actions != [] {
      var v := Step(p, w, pid, actions[0]);
      assert By(pid, actions)[1..] == By(pid, actions[1..]);
      AloneIsPlay(p, if v.Some? then v.value else w, pid, actions[1..]);
    }
  }

  lemma {:induction false} PlayThen(p: Policy, w: World, first: seq<Move>, second: seq<Move>)
    requires Play(p, w, first).Some?
    ensures Play(p, w, first + second) == Play(p, Play(p, w, first).value, second)
    decreases |first|
  {
    hide Step;
    if first == [] {
      assert first + second == second;
    } else {
      assert (first + second)[1..] == first[1..] + second;
      PlayThen(p, Step(p, w, first[0].pid, first[0].action).value, first[1..], second);
    }
  }

  ghost predicate AllOrderly(moves: seq<Move>) { forall m :: m in moves ==> Orderly(m.action) }

  function Holders(w: World): set<Pid> { set pid | pid in w.procs && PcHolds(w.procs[pid].pc) != {} }

  /** A holder to go first: that of `state.lock`, if there is one. */
  lemma FirstHolder(p: Policy, w: World) returns (q: Pid)
    requires Inv(p, w) && Holders(w) != {}
    ensures q in Holders(w) && StateLockFreeFor(w, q)
  {
    hide PcHolds, FileOk, ProcsOk, LateOk, CleanOk;
    if StateLock in w.owner {
      q := w.owner[StateLock];
      assert StateLock in Held(w.procs[q]);
    } else {
      q :| q in Holders(w);
    }
  }

  /** From every reachable world all holders let go of their locks, one after the other, without a crash. */
  lemma {:induction false} HoldersDrain(p: Policy, w: World) returns (moves: seq<Move>, v: World)
    requires Inv(p, w)
    ensures Play(p, w, moves) == Some(v) && AllOrderly(moves) && Inv(p, v) && Holders(v) == {}
    ensures v.procs.Keys == w.procs.Keys && v.dir.clock == w.dir.clock
    ensures forall q :: q in w.procs && q !in Holders(w) ==> v.procs[q] == w.procs[q]
    decreases |Holders(w)|
  {
    hide Inv, Step, Play, Alone, PcHolds, Extends;
    if Holders(w) == {} {
      moves, v := [], w;
      PlayNothing(p, w);
    } else {
      var q := FirstHolder(p, w);
      var actions, u := RunsFree(p, w, q);
      AloneIsPlay(p, w, q, actions);
      FewerHolders(w, u, q);
      var rest;
      rest, v := HoldersDrain(p, u);
      moves := By(q, actions) + rest;
      PlayThen(p, w, By(q, actions), rest);
    }
  }

  lemma PlayNothing(p: Policy, w: World)
    ensures Play(p, w, []) == Some(w)
  {}

  lemma FewerHolders(w: World, u: World, q: Pid)
    requires q in Holders(w) && OnlyMoved(w, u, q) && q in u.procs && PcHolds(u.procs[q].pc) == {}
    ensures Holders(u) == Holders(w) - {q} && |Holders(u)| < |Holders(w)|
  {
    hide PcHolds;
  }

  // ---------------------------------------------------------------- the way past the intent marker

  /** With no lock held at any position, a marker that still stands was abandoned, and every lock is free. */
  lemma DrainedWorld(p: Policy, w: World)
    requires Inv(p, w) && Holders(w) == {} && w.dir.intent
    ensures w.owner == map[] && w.dir.file.Some?
  {
    hide PcHolds, FlagsOk, PcOk, Committed;
    forall l | l in w.owner ensures false {
      var q := w.owner[l];
      assert l in Held(w.procs[q]);
      assert q !in Holders(w);
      assert w.procs[q].lease;
      assert ProcOk(p, w, q);
      LeftOnlyWhileHolding(w.procs[q].pc);
    }
    assert w.owner.Keys == {};
  }

  lemma UnusedPid(w: World) returns (r: Pid)
    ensures r != RUNNER && r !in w.procs
  {
    r := Above(w.procs.Keys);
  }

  lemma {:induction false} Above(pids: set<Pid>) returns (r: Pid)
    ensures r > 0 && forall q :: q in pids ==> q < r
  {
    if pids == {} {
      r := 1;
    } else {
      var q :| q in pids;
      var s := Above(pids - {q});
      r := if s > q then s else q + 1;
      forall x | x in pids ensures x < r { assert x == q || x in pids - {q}; }
    }
  }

  /** A fresh reconciler, alone in a drained world, takes the marker away. */
  lemma ReconcilerClears(p: Policy, w: World) returns (moves: seq<Move>, v: World)
    requires Inv(p, w) && Holders(w) == {} && w.dir.intent
    ensures Play(p, w, moves) == Some(v) && AllOrderly(moves) && !v.dir.intent
    ensures forall q :: q in w.procs ==> q in v.procs && v.procs[q] == w.procs[q]
  {
    hide Inv, Step, Play, Alone, Extends, Valid, Holders, TookWorld;
    DrainedWorld(p, w);
    var r := UnusedPid(w);
    var born := Spawned(w, r);
    SpawnWorks(p, w, r);
    ApproachTakes(p, born, r);
    TookWorldFacts(born, r);
    var took := TookWorld(born, r);
    ReconcileRecovers(p, took, r);
    var actions := APPROACH + (if born.dir.file.value.job.status == Running then RECOVER else [Advance]);
    v := Alone(p, took, r, if born.dir.file.value.job.status == Running then RECOVER else [Advance]).value;
    AloneThen(p, born, r, APPROACH, if born.dir.file.value.job.status == Running then RECOVER else [Advance]);
    AloneKeepsOthers(p, born, r, actions);
    AloneIsPlay(p, born, r, actions);
    moves := [Move(r, Spawn)] + By(r, actions);
    PlayOne(p, w, Move(r, Spawn));
    PlayThen(p, w, [Move(r, Spawn)], By(r, actions));
  }

  function Spawned(w: World, r: Pid): World { w.(procs := w.procs[r := Proc(Idle, false, false, false)]) }

  lemma SpawnWorks(p: Policy, w: World, r: Pid)
    requires Inv(p, w) && r != RUNNER && r !in w.procs
    ensures Step(p, w, r, Spawn) == Some(Spawned(w, r)) && Inv(p, Spawned(w, r))
  {
    hide Inv;
    SpawnStep(p, w, r);
  }

  lemma PlayOne(p: Policy, w: World, m: Move)
    ensures Play(p, w, [m]) == Step(p, w, m.pid, m.action)
  {
    hide Step;
    assert [m][1..] == [];
  }

  lemma {:induction false} AloneThen(p: Policy, w: World, pid: Pid, first: seq<Action>, second: seq<Action>)
    requires Alone(p, w, pid, first).Some?
    ensures Alone(p, w, pid, first + second) == Alone(p, Alone(p, w, pid, first).value, pid, second)
    decreases |first|
  {
    hide Step;
    if first == [] {
      assert first + second == second;
    } else {
      assert (first + second)[1..] == first[1..] + second;
      AloneThen(p, Step(p, w, pid, first[0]).value, pid, first[1..], second);
    }
  }

  lemma {:induction false} AloneKeepsOthers(p: Policy, w: World, pid: Pid, actions: seq<Action>)
    requires Alone(p, w, pid, actions).Some?
    ensures var v := Alone(p, w, pid, actions).value;
      forall q :: q in w.procs && q != pid ==> q in v.procs && v.procs[q] == w.procs[q]
    decreases |actions|
  {
    hide Step;
    if actions != [] {
      StepKeepsOthers(p, w, pid, actions[0]);
      AloneKeepsOthers(p, Step(p, w, pid, actions[0]).value, pid, actions[1..]);
    }
  }

  /** A step changes the record of nobody but its process. */
  lemma StepKeepsOthers(p: Policy, w: World, pid: Pid, a: Action)
    requires Step(p, w, pid, a).Some?
    ensures var v := Step(p, w, pid, a).value;
      forall q :: q in w.procs && q != pid ==> q in v.procs && v.procs[q] == w.procs[q]
  {
    hide Candidate, Valid, PublishGuard, Overwrite, AdvanceStep;
    if a.Advance? && pid in w.procs { AdvanceKeepsOthers(p, w, pid); }
  }

  lemma AdvanceKeepsOthers(p: Policy, w: World, pid: Pid)
    requires pid in w.procs && AdvanceStep(p, w, pid).Some?
    ensures var v := AdvanceStep(p, w, pid).value;
      forall q :: q in w.procs && q != pid ==> q in v.procs && v.procs[q] == w.procs[q]
  {
    hide AdvanceStep, Left, WriteThen, MutateStep;
    var pc := w.procs[pid].pc;
    if PcHolds(pc) == {} { FreeKeepsOthers(p, w, pid); }
    else if pc.Writing? || pc.Closing? { WritingKeepsOthers(p, w, pid); }
    else if pc.Mutate? { MutateMoves(p, w, pid); AdvanceMutates(p, w, pid); }
    else if LockPc(pc) { LockWasFree(p, w, pid); LockMoves(p, w, pid); }
    else if pc.CancelActive? || pc.WriteLost? || pc.WriteTerminal? { PublishMoves(p, w, pid); }
    else if pc.Took? || pc.CreateIntent? || pc.ClearLost? || pc.ClearIntent? || pc.Erase? { MarkerMoves(p, w, pid); }
    else if pc.TryRunner? { TryMoves(p, w, pid); }
    else { OtherMoves(p, w, pid); }
  }

  lemma LockWasFree(p: Policy, w: World, pid: Pid)
    requires pid in w.procs && LockPc(w.procs[pid].pc) && AdvanceStep(p, w, pid).Some?
    ensures !Blocked(w, pid)
  {
    hide WriteThen, MutateStep, CommitAppend, ObserveStep, TookStep, EraseStep, TryRunnerStep;
  }

  lemma WritingKeepsOthers(p: Policy, w: World, pid: Pid)
    requires pid in w.procs && (w.procs[pid].pc.Writing? || w.procs[pid].pc.Closing?) && AdvanceStep(p, w, pid).Some?
    ensures OnlyMoved(w, AdvanceStep(p, w, pid).value, pid)
  {
    hide Valid, WriteThen, MutateStep, ObserveStep, TookStep, EraseStep, TryRunnerStep;
  }

  lemma FreeKeepsOthers(p: Policy, w: World, pid: Pid)
    requires pid in w.procs && PcHolds(w.procs[pid].pc) == {} && AdvanceStep(p, w, pid).Some?
    ensures OnlyMoved(w, AdvanceStep(p, w, pid).value, pid)
  {
    hide WriteThen, MutateStep, CommitAppend, TookStep, EraseStep, TryRunnerStep;
  }

  /** A process that waits for the marker to go never waits in vain: from every world of every run there are
      moves, without a crash, a surrender or a move of its own, after which it can go on. The holders finish; if the
      marker still stands then, it was abandoned, and one reconcile takes it away. */
  lemma MarkerWaiterGetsOn(p: Policy, worlds: seq<World>, moves: seq<Move>, k: nat, pid: Pid)
    returns (more: seq<Move>, v: World)
    requires IsRun(p, worlds, moves) && k < |worlds| && pid in worlds[k].procs && worlds[k].procs[pid].pc.AwaitNoIntent?
    ensures Play(p, worlds[k], more) == Some(v) && AllOrderly(more)
    ensures pid in v.procs && v.procs[pid] == worlds[k].procs[pid] && Step(p, v, pid, Advance).Some?
  {
    hide Inv, Play, Step, Holders;
    RunInv(p, worlds, moves, k);
    var w := worlds[k];
    WaiterHoldsNothing(w, pid);
    more, v := HoldersDrain(p, w);
    if v.dir.intent {
      var rest, u := ReconcilerClears(p, v);
      PlayThen(p, w, more, rest);
      more, v := more + rest, u;
    }
    WaiterAdvances(p, v, pid);
  }

  lemma WaiterHoldsNothing(w: World, pid: Pid)
    requires pid in w.procs && w.procs[pid].pc.AwaitNoIntent?
    ensures pid !in Holders(w)
  {}

  lemma WaiterAdvances(p: Policy, w: World, pid: Pid)
    requires pid in w.procs && w.procs[pid].pc.AwaitNoIntent? && !w.dir.intent
    ensures Step(p, w, pid, Advance).Some?
  {
    hide WriteThen, MutateStep, CommitAppend, ObserveStep, TookStep, EraseStep, TryRunnerStep;
  }

  /** A reconciler with `runner.lock` recovers the job from every reachable world: if another process holds
      `state.lock`, at most five moves of that one let it go on. */
  lemma ReconcileRecoversAnyway(p: Policy, w: World, pid: Pid) returns (moves: seq<Move>, end: World)
    requires Inv(p, w) && pid in w.procs && w.procs[pid].pc.Took? && w.dir.file.Some?
    ensures Play(p, w, moves) == Some(end) && AllOrderly(moves) && |moves| <= 9
    ensures end.dir.file.Some? && end.dir.file.value.job.status != Running && !end.dir.intent
    ensures Extends(w.dir.file.value, end.dir.file.value)
  {
    hide Inv, Play, Step, Alone, Extends, Valid, PcHolds, Beside;
    var first: seq<Move>, v := [], w;
    PlayNothing(p, w);
    ExtendsRefl(w.dir.file.value);
    if StateLock in w.owner {
      var q := w.owner[StateLock];
      TookHoldsRunner(p, w, pid);
      var actions;
      actions, v := StateLockIsReleased(p, w);
      AloneIsPlay(p, w, q, actions);
      ByLength(q, actions);
      first := By(q, actions);
      BesideFacts(w, v, q, pid);
    }
    var actions := if v.procs[pid].pc.running then RECOVER else [Advance];
    ReconcileRecovers(p, v, pid);
    end := Alone(p, v, pid, actions).value;
    AloneIsPlay(p, v, pid, actions);
    ByLength(pid, actions);
    moves := first + By(pid, actions);
    PlayThen(p, w, first, By(pid, actions));
    ExtendsTransitive(w.dir.file.value, v.dir.file.value, end.dir.file.value);
  }

  lemma {:induction false} ByLength(pid: Pid, actions: seq<Action>)
    ensures |By(pid, actions)| == |actions|
  {
    if actions != [] { ByLength(pid, actions[1..]); }
  }

  lemma TookHoldsRunner(p: Policy, w: World, pid: Pid)
    requires Inv(p, w) && pid in w.procs && w.procs[pid].pc.Took? && StateLock in w.owner
    ensures w.owner[StateLock] != pid && RunnerLockElsewhere(w, w.owner[StateLock])
  {
    HeldOwned(p, w, pid);
    assert StateLock in Held(w.procs[w.owner[StateLock]]);
  }

  lemma BesideFacts(w: World, v: World, q: Pid, pid: Pid)
    requires Beside(w, v, q) && pid in w.procs && pid != q && RunnerLockElsewhere(w, q) && w.dir.file.Some?
    ensures pid in v.procs && v.procs[pid] == w.procs[pid]
    ensures v.dir.file.Some? && Extends(w.dir.file.value, v.dir.file.value)
  {}
}
