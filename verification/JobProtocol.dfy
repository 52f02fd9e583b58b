/** The store protocol of one job directory as an interleaving of atomic steps: any number of
    processes, three advisory locks, the terminal intent marker, the state file and the output log.
    A process may crash between any two steps, which drops its locks. */
module JobProtocol {
  import opened JobState

  type Byte = bv8
  type Pid = nat

  const RUNNER: Pid := 0

  datatype Lock = RunnerLock | RecoveryLock | StateLock

  /** An operation that runs under `state.lock` after the intent check. */
  datatype Mutation =
    | Append(data: seq<Byte>)
    | Cancel(actor: SessionId)
    | CommitWait(session: SessionId, chunk: Chunk, updatedAt: int)

  /** Where a process stands; the comment names the locks it holds there. */
  datatype PC =
    | Idle
    // openLockedJobContext and the mutation it guards
    | AwaitNoIntent(op: Mutation)
    | AwaitState(op: Mutation)
    | CheckIntent(op: Mutation)                                  // state
    | Mutate(op: Mutation)                                       // state
    | Writing(data: seq<Byte>, accepted: nat, written: nat)      // state
    // reconcileRunnerStateWithActiveMutation
    | AwaitRecovery(cancel: Option<SessionId>)
    | ReadState(cancel: Option<SessionId>)                       // recovery
    | TryRunner(cancel: Option<SessionId>, running: bool, seen: bool) // recovery
    | AwaitStateActive(actor: SessionId)                         // recovery
    | CancelActive(actor: SessionId)                             // recovery, state
    | Took(running: bool, seen: bool)                            // recovery, runner
    | AwaitStateLost                                             // recovery, runner
    | WriteLost                                                  // recovery, runner, state
    | ClearLost                                                  // recovery, runner, state
    // removeTerminal and runnerLeaseActive
    | TryErase(actor: SessionId)
    | AwaitStateErase(actor: SessionId)                          // runner
    | Erase(actor: SessionId)                                    // runner, state
    // publishTerminalState, run by the holder of the lease
    | AwaitRecoveryPublish(outcome: Outcome)
    | CreateIntent(outcome: Outcome)                             // recovery
    | AwaitStatePublish(outcome: Outcome)                        // recovery
    | WriteTerminal(outcome: Outcome)                            // recovery, state
    | ClearIntent                                                // recovery, state
    // a lock-free observer
    | ReadLog(session: SessionId, start: nat, snap: PersistedState)
    | Respond(session: SessionId, start: nat, snap: PersistedState, bytes: seq<Byte>)
    // unlocking, one lock a step
    | Closing(held: set<Lock>)

  /** `lease` is the runner's hold on `runner.lock` from preparation to release. */
  datatype Proc = Proc(pc: PC, lease: bool, sawCancel: bool, sawLimit: bool)

  /** What every process can see: the state file (None once the directory is erased), the output
      log, the intent marker and the clock. `fed` is history: every byte handed to a completed append. */
  datatype Dir = Dir(file: Option<PersistedState>, log: seq<Byte>, intent: bool, clock: int, fed: seq<Byte>)

  /** The last two fields are history: the non-terminal writes since the intent was created, and
      whether the intent was left behind by a process that crashed or gave up while it was its own. */
  datatype World = World(dir: Dir, owner: map<Lock, Pid>, procs: map<Pid, Proc>, late: nat, orphaned: bool)

  datatype Action =
    | Tick(elapsed: nat) | Spawn | Crash | Exit | GiveUp
    | StartAppend(data: seq<Byte>) | StartPublish(outcome: Outcome) | Poll
    | StartCancel(actor: SessionId) | StartReconcile(cancel: Option<SessionId>)
    | StartProbe | StartErase(actor: SessionId) | StartWait(session: SessionId, explicit: Option<int>)
    | Advance | WriteSome(count: nat) | Release(lock: Lock)

  // ---------------------------------------------------------------- locks as a function of the position

  function PcHolds(pc: PC): set<Lock> {
    match pc
    case CheckIntent(_) | Mutate(_) | Writing(_, _, _) => {StateLock}
    case ReadState(_) | TryRunner(_, _, _) | AwaitStateActive(_) | CreateIntent(_) | AwaitStatePublish(_) => {RecoveryLock}
    case CancelActive(_) | WriteTerminal(_) | ClearIntent => {RecoveryLock, StateLock}
    case Took(_, _) | AwaitStateLost => {RecoveryLock, RunnerLock}
    case WriteLost | ClearLost => {RecoveryLock, RunnerLock, StateLock}
    case AwaitStateErase(_) => {RunnerLock}
    case Erase(_) => {RunnerLock, StateLock}
    case Closing(held) => held
    case _ => {}
  }

  function Held(proc: Proc): set<Lock> {
    PcHolds(proc.pc) + if proc.lease then {RunnerLock} else {}
  }

  /** The lock the next step blocks on; `runner.lock` is only ever tried. */
  function WaitsFor(pc: PC): Option<Lock> {
    match pc
    case AwaitState(_) | AwaitStateActive(_) | AwaitStateLost | AwaitStateErase(_) | AwaitStatePublish(_) => Some(StateLock)
    case AwaitRecovery(_) | AwaitRecoveryPublish(_) => Some(RecoveryLock)
    case _ => None
  }

  /** Between creating (or adopting) the intent and removing it. */
  predicate OwnsIntent(pc: PC) {
    pc.AwaitStateLost? || pc.WriteLost? || pc.ClearLost? || pc.AwaitStatePublish? || pc.WriteTerminal? || pc.ClearIntent?
  }

  /** Past the intent check, the write still ahead. */
  predicate PastCheck(pc: PC) { pc.Mutate? || pc.Writing? }

  // ---------------------------------------------------------------- elementary effects

  function Goto(w: World, pid: Pid, pc: PC): World
    requires pid in w.procs
  {
    w.(procs := w.procs[pid := w.procs[pid].(pc := pc)])
  }

  function Acquire(w: World, pid: Pid, lock: Lock, pc: PC): World
    requires pid in w.procs
  {
    Goto(w, pid, pc).(owner := w.owner[lock := pid])
  }

  /** A state write outside the append path: rejected writes leave the file as it was. */
  ghost function Publish(p: Policy, w: World, next: PersistedState): World
    requires w.dir.file.Some?
  {
    if PublishGuard(w.dir.file.value, next, |w.dir.log|) && Valid(p, next)
    then w.(dir := w.dir.(file := Some(next)), late := if next.job.status == Running then w.late + 1 else w.late)
    else w
  }

  function Overwrite(log: seq<Byte>, offset: nat, data: seq<Byte>): (r: seq<Byte>)
    requires offset <= |log|
    ensures |r| >= |log| && |r| >= offset + |data|
    ensures r[..offset] == log[..offset] && r[offset..offset + |data|] == data
  {
    log[..offset] + data + if offset + |data| <= |log| then log[offset + |data|..] else []
  }

  function Truncated(fed: seq<Byte>, limit: nat): seq<Byte> {
    if |fed| <= limit then fed else fed[..limit]
  }

  // ---------------------------------------------------------------- what a process is about to write

  /** The state the next step of `pid` would put into `state.json`, if it would write at all. */
  function Candidate(p: Policy, w: World, pid: Pid): Option<PersistedState>
    requires pid in w.procs
  {
    if w.dir.file.None? then None else
    var s := w.dir.file.value;
    match w.procs[pid].pc
    case Mutate(Cancel(actor)) => CancelCandidate(s, w.dir.clock, actor)
    case CancelActive(actor) => CancelCandidate(s, w.dir.clock, actor)
    case Mutate(CommitWait(session, chunk, updatedAt)) =>
      var r := WaitCommitted(p, s, session, chunk, updatedAt);
      if r.Replaced? then Some(r.next) else None
    case WriteLost => if s.job.status == Running then Some(RunnerLostState(s, w.dir.clock)) else None
    case WriteTerminal(o) =>
      var next := TerminalState(s, o, w.dir.clock);
      if next.Some? && next.value.job.status != s.job.status && TransitionAllowed(s.job.status, next.value.job.status)
      then next else None
    case _ => None
  }

  function CancelCandidate(s: PersistedState, now: int, actor: SessionId): Option<PersistedState> {
    if s.job.owner == actor && EvaluateCancellation(s) == Requested then Some(CancelRequested(s, now, actor)) else None
  }

  ghost function WriteThen(p: Policy, w: World, pid: Pid, pc: PC): World
    requires pid in w.procs
  {
    var next := Candidate(p, w, pid);
    Goto(if next.Some? then Publish(p, w, next.value) else w, pid, pc)
  }

  // ---------------------------------------------------------------- the steps

  function LockedStep(w: World, pid: Pid, lock: Lock, pc: PC): Option<World>
    requires pid in w.procs
  {
    if lock in w.owner then None else Some(Acquire(w, pid, lock, pc))
  }

  function ReachedLimit(w: World, captured: int): bool
    requires w.dir.file.Some?
  {
    captured == w.dir.file.value.job.outputLimit
  }

  function NoteAppend(w: World, pid: Pid, data: seq<Byte>, reached: bool): World
    requires pid in w.procs
  {
    w.(dir := w.dir.(fed := w.dir.fed + data),
       procs := w.procs[pid := w.procs[pid].(pc := Closing({StateLock}), sawLimit := w.procs[pid].sawLimit || reached)])
  }

  ghost function MutateStep(p: Policy, w: World, pid: Pid): World
    requires pid in w.procs && w.procs[pid].pc.Mutate?
  {
    match w.procs[pid].pc.op
    case Append(data) =>
      if w.dir.file.None? || w.dir.file.value.job.status != Running || w.dir.file.value.job.captured < 0
         || w.dir.file.value.job.outputLimit < 0 then Goto(w, pid, Closing({StateLock}))
      else
        var job := w.dir.file.value.job;
        var accepted := AcceptedBytes(p, job.captured, |data|, job.outputLimit);
        if accepted.None? then Goto(w, pid, Closing({StateLock}))
        else if accepted.value == 0 then NoteAppend(w, pid, data, ReachedLimit(w, job.captured))
        else Goto(w, pid, Writing(data, accepted.value, 0))
    case _ => WriteThen(p, w, pid, Closing({StateLock}))
  }

  /** Part of the accepted bytes reaches the log; the state file still names the old count. */
  function WriteSomeStep(w: World, pid: Pid, count: nat): Option<World>
    requires pid in w.procs
  {
    var pc := w.procs[pid].pc;
    if pc.Writing? && w.dir.file.Some? && 0 < count && pc.written + count <= pc.accepted <= |pc.data|
       && 0 <= w.dir.file.value.job.captured + pc.written <= |w.dir.log|
    then Some(Goto(w.(dir := w.dir.(log := Overwrite(w.dir.log, w.dir.file.value.job.captured + pc.written,
                                                     pc.data[pc.written..pc.written + count]))),
                   pid, pc.(written := pc.written + count)))
    else None
  }

  ghost function CommitAppend(p: Policy, w: World, pid: Pid): Option<World>
    requires pid in w.procs && w.procs[pid].pc.Writing?
  {
    var pc := w.procs[pid].pc;
    if w.dir.file.None? || pc.written != pc.accepted then None else
    var next := Appended(w.dir.file.value, pc.accepted);
    if Valid(p, next)
    then Some(NoteAppend(w.(dir := w.dir.(file := Some(next)), late := w.late + 1), pid, pc.data, ReachedLimit(w, next.job.captured)))
    else Some(Goto(w, pid, Closing({StateLock})))
  }

  function TryRunnerStep(w: World, pid: Pid): World
    requires pid in w.procs && w.procs[pid].pc.TryRunner?
  {
    var pc := w.procs[pid].pc;
    if RunnerLock !in w.owner then Acquire(w, pid, RunnerLock, Took(pc.running, pc.seen))
    else if pc.cancel.Some? && !pc.seen then Goto(w, pid, AwaitStateActive(pc.cancel.value))
    else Goto(w, pid, Closing({RecoveryLock}))
  }

  function TookStep(w: World, pid: Pid): World
    requires pid in w.procs && w.procs[pid].pc.Took?
  {
    var pc := w.procs[pid].pc;
    if w.dir.file.None? then Goto(w, pid, Closing({RunnerLock, RecoveryLock}))
    else if !pc.running then Goto(w.(dir := w.dir.(intent := false), orphaned := false), pid, Closing({RunnerLock, RecoveryLock}))
    else if pc.seen then Goto(w.(orphaned := false), pid, AwaitStateLost)
    else Goto(w.(dir := w.dir.(intent := true), late := 0), pid, AwaitStateLost)
  }

  function EraseStep(w: World, pid: Pid): World
    requires pid in w.procs && w.procs[pid].pc.Erase?
  {
    if w.dir.file.Some? && w.dir.file.value.job.owner == w.procs[pid].pc.actor && MayRemove(w.dir.file.value.job.status)
    then Goto(w.(dir := w.dir.(file := None, log := [], intent := false), orphaned := false), pid, Closing({RunnerLock, StateLock}))
    else Goto(w, pid, Closing({RunnerLock, StateLock}))
  }

  function ResolveStart(s: PersistedState, session: SessionId, explicit: Option<int>): int {
    if explicit.Some? then explicit.value
    else if CursorOf(s.observers, session) >= 0 then CursorOf(s.observers, session) else 0
  }

  /** `newPreparedWait`'s stamp: the clock, not before creation, not after an observed finish. */
  function WaitStamp(snap: PersistedState, now: int): int {
    FinishBound(snap, Max(now, snap.job.createdAt))
  }

  function ObserveStep(w: World, pid: Pid): World
    requires pid in w.procs && (w.procs[pid].pc.ReadLog? || w.procs[pid].pc.Respond?)
  {
    match w.procs[pid].pc
    case ReadLog(session, start, snap) =>
      if w.dir.file.Some? && start <= snap.job.captured <= |w.dir.log|
      then Goto(w, pid, Respond(session, start, snap, w.dir.log[start..snap.job.captured]))
      else Goto(w, pid, Idle)
    case Respond(session, start, snap, _) =>
      Goto(w, pid, AwaitNoIntent(CommitWait(session,
        Chunk(start, snap.job.captured, snap.job.captured, snap.job.status != Running), WaitStamp(snap, w.dir.clock))))
  }

  ghost function AdvanceStep(p: Policy, w: World, pid: Pid): Option<World>
    requires pid in w.procs
  {
    match w.procs[pid].pc
    case AwaitNoIntent(op) =>
      if w.dir.file.None? then Some(Goto(w, pid, Idle)) else if w.dir.intent then None else Some(Goto(w, pid, AwaitState(op)))
    case AwaitState(op) => LockedStep(w, pid, StateLock, CheckIntent(op))
    case CheckIntent(op) =>
      Some(if w.dir.intent then Goto(w, pid, AwaitNoIntent(op)).(owner := w.owner - {StateLock}) else Goto(w, pid, Mutate(op)))
    case Mutate(_) => Some(MutateStep(p, w, pid))
    case Writing(_, _, _) => CommitAppend(p, w, pid)
    case AwaitRecovery(cancel) =>
      if w.dir.file.None? then Some(Goto(w, pid, Idle)) else LockedStep(w, pid, RecoveryLock, ReadState(cancel))
    case ReadState(cancel) =>
      Some(if w.dir.file.None? || (w.dir.file.value.job.status != Running && !w.dir.intent) then Goto(w, pid, Closing({RecoveryLock}))
           else Goto(w, pid, TryRunner(cancel, w.dir.file.value.job.status == Running, w.dir.intent)))
    case TryRunner(_, _, _) => Some(TryRunnerStep(w, pid))
    case AwaitStateActive(actor) => LockedStep(w, pid, StateLock, CancelActive(actor))
    case CancelActive(_) => Some(WriteThen(p, w, pid, Closing({StateLock, RecoveryLock})))
    case Took(_, _) => Some(TookStep(w, pid))
    case AwaitStateLost => LockedStep(w, pid, StateLock, WriteLost)
    case WriteLost => Some(WriteThen(p, w, pid, ClearLost))
    case ClearLost => Some(Goto(w.(dir := w.dir.(intent := false)), pid, Closing({StateLock, RunnerLock, RecoveryLock})))
    case TryErase(actor) =>
      if RunnerLock in w.owner then Some(Goto(w, pid, Idle)) else LockedStep(w, pid, RunnerLock, AwaitStateErase(actor))
    case AwaitStateErase(actor) => LockedStep(w, pid, StateLock, Erase(actor))
    case Erase(_) => Some(EraseStep(w, pid))
    case AwaitRecoveryPublish(o) => LockedStep(w, pid, RecoveryLock, CreateIntent(o))
    case CreateIntent(o) =>
      Some(if w.dir.intent then Goto(w, pid, Closing({RecoveryLock}))
           else Goto(w.(dir := w.dir.(intent := true), late := 0), pid, AwaitStatePublish(o)))
    case AwaitStatePublish(o) => LockedStep(w, pid, StateLock, WriteTerminal(o))
    case WriteTerminal(_) => Some(WriteThen(p, w, pid, ClearIntent))
    case ClearIntent => Some(Goto(w.(dir := w.dir.(intent := false)), pid, Closing({StateLock, RecoveryLock, RunnerLock})))
    case ReadLog(_, _, _) => Some(ObserveStep(w, pid))
    case Respond(_, _, _, _) => Some(ObserveStep(w, pid))
    case _ => None
  }

  function ReleaseStep(w: World, pid: Pid, lock: Lock): Option<World>
    requires pid in w.procs
  {
    var proc := w.procs[pid];
    if !proc.pc.Closing? || lock !in proc.pc.held then None else
    var left := proc.pc.held - {lock};
    var after := proc.(pc := if left == {} then Idle else Closing(left), lease := proc.lease && lock != RunnerLock);
    Some(w.(procs := w.procs[pid := after], owner := w.owner - {lock}))
  }

  /** A wait for a lock ends at its deadline or with its context; the runner's publication has neither. A write
      may fail and be reported without a crash: a failed append leaves part of its bytes in the log, and both
      publications of an outcome take their marker away again. */
  function GiveUpStep(w: World, pid: Pid): Option<World>
    requires pid in w.procs
  {
    match w.procs[pid].pc
    case AwaitNoIntent(_) | AwaitState(_) | AwaitRecovery(_) | Respond(_, _, _, _) => Some(Goto(w, pid, Idle))
    case AwaitStateActive(_) => Some(Goto(w, pid, Closing({RecoveryLock})))
    case AwaitStateLost => Some(Goto(w.(orphaned := true), pid, Closing({RunnerLock, RecoveryLock})))
    case AwaitStateErase(_) => Some(Goto(w, pid, Closing({RunnerLock})))
    case Mutate(_) | Writing(_, _, _) => Some(Goto(w, pid, Closing({StateLock})))
    case CancelActive(_) => Some(Goto(w, pid, Closing({StateLock, RecoveryLock})))
    case WriteLost => Some(Goto(w.(dir := w.dir.(intent := false)), pid, Closing({StateLock, RunnerLock, RecoveryLock})))
    case WriteTerminal(_) => Some(Goto(w.(dir := w.dir.(intent := false)), pid, Closing({StateLock, RecoveryLock})))
    case _ => None
  }

  function Gone(w: World, pid: Pid): World
    requires pid in w.procs
  {
    w.(procs := w.procs - {pid}, owner := w.owner - Held(w.procs[pid]))
  }

  /** What the supervision loop guarantees of the outcome it hands to publication. */
  predicate OutcomeBacked(proc: Proc, o: Outcome) {
    OutcomeInRange(o) && (o.cause == CancelledCause ==> proc.sawCancel) && (o.cause == LimitCause ==> proc.sawLimit)
  }

  function StartStep(w: World, pid: Pid, a: Action): Option<World>
    requires pid in w.procs
  {
    var proc := w.procs[pid];
    if !proc.pc.Idle? then None
    else if proc.lease then
      match a
      case StartAppend(data) => Some(Goto(w, pid, AwaitNoIntent(Append(data))))
      case StartPublish(o) => if OutcomeBacked(proc, o) then Some(Goto(w, pid, AwaitRecoveryPublish(o))) else None
      case Poll =>
        if w.dir.file.Some? && w.dir.file.value.cancellation.Some?
        then Some(w.(procs := w.procs[pid := proc.(sawCancel := true)])) else Some(w)
      case _ => None
    else
      match a
      case StartCancel(actor) => Some(Goto(w, pid, AwaitNoIntent(Cancel(actor))))
      case StartReconcile(cancel) => Some(Goto(w, pid, AwaitRecovery(cancel)))
      case StartProbe => LockedStep(w, pid, RunnerLock, Closing({RunnerLock}))
      case StartErase(actor) => Some(Goto(w, pid, TryErase(actor)))
      case StartWait(session, explicit) =>
        if w.dir.file.None? then Some(w) else
        var start := ResolveStart(w.dir.file.value, session, explicit);
        if 0 <= start <= w.dir.file.value.job.captured
        then Some(Goto(w, pid, ReadLog(session, start, w.dir.file.value))) else Some(w)
      case _ => None
  }

  ghost function ProcStep(p: Policy, w: World, pid: Pid, a: Action): Option<World>
    requires pid in w.procs
  {
    if a.Crash? then Some(Gone(w, pid).(orphaned := w.orphaned || OwnsIntent(w.procs[pid].pc)))
    else if a.Exit? then (if w.procs[pid].pc.Idle? then Some(Gone(w, pid)) else None)
    else if a.GiveUp? then GiveUpStep(w, pid)
    else if a.Advance? then AdvanceStep(p, w, pid)
    else if a.WriteSome? then WriteSomeStep(w, pid, a.count)
    else if a.Release? then ReleaseStep(w, pid, a.lock)
    else StartStep(w, pid, a)
  }

  /** One atomic step of process `pid`; None where the step is not possible. */
  ghost function Step(p: Policy, w: World, pid: Pid, a: Action): Option<World> {
    if a.Tick? then Some(w.(dir := w.dir.(clock := w.dir.clock + a.elapsed)))
    else if a.Spawn? then
      if pid == RUNNER || pid in w.procs then None
      else Some(w.(procs := w.procs[pid := Proc(Idle, false, false, false)]))
    else if pid in w.procs then ProcStep(p, w, pid, a) else None
  }

  /** The directory right after its rename into place: the runner holds its lease. */
  function Initial(r: StartRequest, started: int, clock: int): World {
    World(Dir(Some(InitialState(r, started)), [], false, clock, []), map[RunnerLock := RUNNER],
      map[RUNNER := Proc(Idle, true, false, false)], 0, false)
  }

  ghost predicate AdmissibleStart(p: Policy, r: StartRequest) {
    0 < r.outputLimit <= p.captureLimit && p.pathAllowed(r.workspace, r.cwd)
  }

  /** A finite run: worlds joined by steps, from an initial world. */
  datatype Move = Move(pid: Pid, action: Action)

  ghost predicate IsRun(p: Policy, worlds: seq<World>, moves: seq<Move>) {
    && |worlds| == |moves| + 1
    && (exists r, started, clock :: AdmissibleStart(p, r) && worlds[0] == Initial(r, started, clock))
    && forall i :: 0 <= i < |moves| ==> Step(p, worlds[i], moves[i].pid, moves[i].action) == Some(worlds[i + 1])
  }
}
