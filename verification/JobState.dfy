/** The persisted state of one job, the validator every stored state passes, the guard
    every non-output write passes, and the functions that build each next state. */
module JobState {

  datatype Option<+T> = None | Some(value: T)

  datatype Status =
    | Running | Succeeded | NonzeroExit | SignalExit
    | Cancelled | HardTimeout | OutputLimit | RunnerLost

  type SessionId = string

  datatype Session = Session(schemaVersion: int, id: SessionId, workspace: string, createdAt: int)

  datatype Job = Job(
    id: string, status: Status, owner: SessionId, workspace: string, cwd: string, command: string,
    createdAt: int, startedAt: int, finishedAt: Option<int>,
    hardTimeout: int, outputLimit: int, captured: int)

  datatype Observer = Observer(session: SessionId, cursor: int, updatedAt: int)

  datatype Cancellation = Cancellation(requested: bool, requestedAt: int, requestedBy: SessionId)

  datatype ProcessResult = ProcessResult(
    status: Status, exitCode: Option<int>, signal: Option<int>, diagnostic: Option<string>,
    finishedAt: int, captured: int)

  datatype PersistedState = PersistedState(
    schemaVersion: int, session: Session, job: Job, observers: seq<Observer>,
    cancellation: Option<Cancellation>, result: Option<ProcessResult>)

  /** The parts of the policy the store depends on. `pathAllowed(workspace, cwd)` is the lexical
      workspace check, a function of the two strings alone. */
  datatype Policy = Policy(captureLimit: nat, pathAllowed: (string, string) -> bool)

  function Max(a: int, b: int): int { if a < b then b else a }

  function Min(a: int, b: int): int { if b < a then b else a }

  // ---------------------------------------------------------------- the validator

  predicate SignalInRange(signal: Option<int>) {
    signal.None? || 0 < signal.value <= 64
  }

  predicate ValidProcessResult(r: ProcessResult) {
    match r.status
    case Running => false
    case Succeeded => r.exitCode == Some(0) && r.signal.None?
    case NonzeroExit => r.exitCode.Some? && 0 < r.exitCode.value <= 255 && r.signal.None?
    case SignalExit => r.exitCode.None? && r.signal.Some? && 0 < r.signal.value <= 64
    case Cancelled | HardTimeout | OutputLimit => r.exitCode.None? && SignalInRange(r.signal)
    case RunnerLost =>
      r.exitCode.None? && r.signal.None? && r.diagnostic.Some? && r.diagnostic.value != ""
  }

  ghost predicate ObserversValid(s: PersistedState) {
    && (forall i :: 0 <= i < |s.observers| ==>
          && 0 <= s.observers[i].cursor <= s.job.captured
          && s.job.createdAt <= s.observers[i].updatedAt)
    && (forall i, j :: 0 <= i < j < |s.observers| ==> s.observers[i].session != s.observers[j].session)
  }

  ghost predicate CancellationValid(s: PersistedState) {
    s.cancellation.Some? ==>
      && s.cancellation.value.requested
      && s.cancellation.value.requestedBy == s.job.owner
      && s.job.createdAt <= s.cancellation.value.requestedAt
  }

  /** Result and finish time exist exactly in terminal states and agree with the job. */
  ghost predicate OutcomeValid(s: PersistedState) {
    if s.job.status == Running then
      s.job.finishedAt.None? && s.result.None?
    else
      && s.job.finishedAt.Some? && s.result.Some?
      && var finished := s.job.finishedAt.value;
      && s.job.startedAt <= finished
      && (s.cancellation.Some? ==> s.cancellation.value.requestedAt <= finished)
      && (forall i :: 0 <= i < |s.observers| ==> s.observers[i].updatedAt <= finished)
      && s.result.value.status == s.job.status
      && s.result.value.captured == s.job.captured
      && s.result.value.finishedAt == finished
      && ValidProcessResult(s.result.value)
  }

  predicate HeaderValid(p: Policy, s: PersistedState) {
    && s.schemaVersion == 1 && s.session.schemaVersion == 1
    && 0 < s.job.outputLimit <= p.captureLimit
    && s.session.createdAt <= s.job.createdAt <= s.job.startedAt
    && 0 <= s.job.captured <= s.job.outputLimit
    && s.session.id == s.job.owner && s.session.workspace == s.job.workspace
    && p.pathAllowed(s.job.workspace, s.job.cwd)
  }

  ghost predicate Valid(p: Policy, s: PersistedState) {
    HeaderValid(p, s) && ObserversValid(s) && CancellationValid(s) && OutcomeValid(s)
  }

  /** The validator as the store runs it: checks in the source's order, with the set of sessions
      seen so far, accepting exactly the valid states. */
  method ValidatePersistedState(p: Policy, s: PersistedState) returns (allowed: bool)
    ensures allowed <==> Valid(p, s)
  {
    var job := s.job;
    if s.schemaVersion != 1 || s.session.schemaVersion != 1 { return false; }
    if job.outputLimit <= 0 || job.outputLimit > p.captureLimit { return false; }
    if s.session.createdAt > job.createdAt || job.createdAt > job.startedAt { return false; }
    if job.captured < 0 || job.captured > job.outputLimit { return false; }
    if s.session.id != job.owner || s.session.workspace != job.workspace { return false; }
    if !p.pathAllowed(job.workspace, job.cwd) { return false; }
    var seen: set<SessionId> := {};
    for i := 0 to |s.observers|
      invariant seen == set k | 0 <= k < i :: s.observers[k].session
      invariant forall k :: 0 <= k < i ==>
        && 0 <= s.observers[k].cursor <= job.captured
        && job.createdAt <= s.observers[k].updatedAt
      invariant forall k, l :: 0 <= k < l < i ==> s.observers[k].session != s.observers[l].session
    {
      var observer := s.observers[i];
      if observer.session in seen || observer.cursor < 0 || observer.cursor > job.captured ||
         observer.updatedAt < job.createdAt {
        return false;
      }
      seen := seen + {observer.session};
    }
    if s.cancellation.Some? && s.cancellation.value.requestedAt < job.createdAt { return false; }
    if s.cancellation.Some? && (!s.cancellation.value.requested || s.cancellation.value.requestedBy != job.owner) {
      return false;
    }
    if job.status == Running { return job.finishedAt.None? && s.result.None?; }
    if job.finishedAt.None? || s.result.None? { return false; }
    var finished := job.finishedAt.value;
    if finished < job.startedAt || (s.cancellation.Some? && s.cancellation.value.requestedAt > finished) {
      return false;
    }
    for i := 0 to |s.observers|
      invariant forall k :: 0 <= k < i ==> s.observers[k].updatedAt <= finished
    {
      if s.observers[i].updatedAt > finished { return false; }
    }
    var result := s.result.value;
    return result.status == job.status && result.captured == job.captured &&
      result.finishedAt == finished && ValidProcessResult(result);
  }

  // ---------------------------------------------------------------- the write guard

  predicate SameImmutable(a: PersistedState, b: PersistedState) {
    && a.schemaVersion == b.schemaVersion && a.session == b.session
    && a.job.id == b.job.id && a.job.owner == b.job.owner && a.job.workspace == b.job.workspace
    && a.job.cwd == b.job.cwd && a.job.command == b.job.command
    && a.job.createdAt == b.job.createdAt && a.job.startedAt == b.job.startedAt
    && a.job.hardTimeout == b.job.hardTimeout && a.job.outputLimit == b.job.outputLimit
  }

  predicate PreservesPublished(a: PersistedState, b: PersistedState) {
    && (a.result.Some? ==> a.result == b.result)
    && (a.cancellation.Some? ==> a.cancellation == b.cancellation)
    && (a.job.finishedAt.Some? ==> a.job.finishedAt == b.job.finishedAt)
  }

  /** What `publishStateLocked` requires before it encodes: the output log holds every captured byte. */
  predicate PublishGuard(cur: PersistedState, next: PersistedState, logSize: nat) {
    && SameImmutable(cur, next)
    && next.job.captured == cur.job.captured
    && PreservesPublished(cur, next)
    && next.job.captured <= logSize
  }

  predicate TransitionAllowed(from: Status, to: Status) {
    from == to || (from == Running && to != Running)
  }

  // ---------------------------------------------------------------- access rules

  predicate MayRemove(status: Status) { status != Running }

  datatype CancelCode = Requested | AlreadyRequested | AlreadyTerminal

  function EvaluateCancellation(s: PersistedState): CancelCode {
    if s.cancellation.Some? then AlreadyRequested
    else if s.job.status != Running then AlreadyTerminal
    else Requested
  }

  // ---------------------------------------------------------------- the writers

  datatype StartRequest = StartRequest(
    jobId: string, session: SessionId, workspace: string, cwd: string, command: string,
    createdAt: int, hardTimeout: int, outputLimit: int)

  function InitialState(r: StartRequest, started: int): PersistedState {
    var start := if started < r.createdAt then r.createdAt else started;
    PersistedState(1, Session(1, r.session, r.workspace, r.createdAt),
      Job(r.jobId, Running, r.session, r.workspace, r.cwd, r.command, r.createdAt, start, None,
          r.hardTimeout, r.outputLimit, 0),
      [], None, None)
  }

  /** How many of `incoming` bytes fit; None when the request or state is out of policy. */
  function AcceptedBytes(p: Policy, captured: nat, incoming: nat, limit: nat): (r: Option<nat>)
    ensures r.Some? ==> captured + r.value <= limit && r.value <= incoming
    ensures r.Some? && r.value < incoming ==> captured + r.value == limit
    ensures r.Some? <==> 0 < limit <= p.captureLimit && captured <= limit
  {
    if limit == 0 || limit > p.captureLimit then None
    else if captured > limit then None
    else if captured == limit then Some(0)
    else if incoming < limit - captured then Some(incoming)
    else Some(limit - captured)
  }

  function Appended(s: PersistedState, accepted: nat): PersistedState {
    s.(job := s.job.(captured := s.job.captured + accepted))
  }

  function CancelRequested(s: PersistedState, now: int, actor: SessionId): PersistedState {
    s.(cancellation := Some(Cancellation(true, Max(now, s.job.createdAt), actor)))
  }

  /** The byte range of a response and the capture count it was cut from. */
  datatype Chunk = Chunk(start: int, next: int, captured: int, eof: bool)

  /** Position of the session's observer, or the number of observers. */
  function ObserverIndex(observers: seq<Observer>, session: SessionId): (i: nat)
    ensures i <= |observers|
    ensures i < |observers| ==> observers[i].session == session
    ensures forall k :: 0 <= k < i ==> observers[k].session != session
  {
    if observers == [] then 0
    else if observers[0].session == session then 0
    else 1 + ObserverIndex(observers[1..], session)
  }

  /** A session's persisted cursor; -1 while it has none. */
  function CursorOf(observers: seq<Observer>, session: SessionId): int {
    var i := ObserverIndex(observers, session);
    if i < |observers| then observers[i].cursor else -1
  }

  function FinishBound(s: PersistedState, updatedAt: int): int {
    if s.job.finishedAt.Some? then Min(updatedAt, s.job.finishedAt.value) else updatedAt
  }

  datatype CommitResult = Unchanged | Rejected | Replaced(next: PersistedState)

  /** `commitWait` after its locks and checks: what becomes of the state. */
  function WaitCommitted(p: Policy, s: PersistedState, session: SessionId, chunk: Chunk, updatedAt: int): CommitResult {
    var i := ObserverIndex(s.observers, session);
    if i < |s.observers| && s.observers[i].cursor >= chunk.next then Unchanged
    else if !(0 <= chunk.captured <= p.captureLimit && 0 <= chunk.next <= chunk.captured) then Rejected
    else
      var next := Observer(session, chunk.next, FinishBound(s, updatedAt));
      Replaced(s.(observers := if i < |s.observers| then s.observers[i := next] else s.observers + [next]))
  }

  datatype Cause = Normal | LimitCause | TimeoutCause | CancelledCause

  datatype ShellWait = ShellWait(exitCode: Option<int>, signal: Option<int>)

  datatype Outcome = Outcome(cause: Cause, wait: ShellWait)

  function Finished(status: Status, exitCode: Option<int>, signal: Option<int>, finished: int, captured: int): ProcessResult {
    ProcessResult(status, exitCode, signal, None, finished, captured)
  }

  /** `processResult`: None is its error. */
  function ResultOf(o: Outcome, finished: int, captured: int): Option<ProcessResult> {
    if o.cause == LimitCause then Some(Finished(OutputLimit, None, o.wait.signal, finished, captured))
    else if o.cause == TimeoutCause then Some(Finished(HardTimeout, None, o.wait.signal, finished, captured))
    else if o.cause == CancelledCause then Some(Finished(Cancelled, None, o.wait.signal, finished, captured))
    else if o.wait.signal.Some? then Some(Finished(SignalExit, None, o.wait.signal, finished, captured))
    else if o.wait.exitCode.Some? then
      var code := o.wait.exitCode.value;
      if code == 0 then Some(Finished(Succeeded, Some(code), None, finished, captured))
      else if 0 < code <= 255 then Some(Finished(NonzeroExit, Some(code), None, finished, captured))
      else None
    else None
  }

  function WithResult(s: PersistedState, r: ProcessResult): PersistedState {
    s.(job := s.job.(status := r.status, finishedAt := Some(r.finishedAt)), result := Some(r))
  }

  /** The runner's terminal state: a cancellation found under the lock overrides the cause. */
  function TerminalState(s: PersistedState, o: Outcome, now: int): Option<PersistedState> {
    var cause := if s.cancellation.Some? then CancelledCause else o.cause;
    var r := ResultOf(o.(cause := cause), Max(now, s.job.startedAt), s.job.captured);
    if r.None? then None else Some(WithResult(s, r.value))
  }

  const LOST_DIAGNOSTIC :=
    "runner liveness lock disappeared; process group cleanup skipped because ownership cannot be pinned"

  function RunnerLostState(s: PersistedState, now: int): PersistedState {
    WithResult(s, ProcessResult(RunnerLost, None, None, Some(LOST_DIAGNOSTIC),
      Max(now, s.job.startedAt), s.job.captured))
  }

  /** What reconciliation makes of the state of a job whose runner is gone. */
  function Reconciled(s: PersistedState, now: int): PersistedState {
    if s.job.status == Running then RunnerLostState(s, now) else s
  }

  // ---------------------------------------------------------------- what the guard and the validator imply

  /** One committed state may follow another: nothing published is taken back. */
  ghost predicate Extends(a: PersistedState, b: PersistedState) {
    && SameImmutable(a, b)
    && a.job.captured <= b.job.captured
    && (forall session :: CursorOf(a.observers, session) <= CursorOf(b.observers, session))
    && (a.cancellation.Some? ==> b.cancellation == a.cancellation)
    && (a.job.status != Running ==> SameOutcome(a, b))
  }

  ghost predicate SameOutcome(a: PersistedState, b: PersistedState) {
    && b.job.status == a.job.status && b.result == a.result
    && b.job.finishedAt == a.job.finishedAt && b.job.captured == a.job.captured
  }

  /** The freeze needs only the field guard and the validator, not the transition table. */
  lemma GuardFreezesOutcome(p: Policy, a: PersistedState, b: PersistedState, logSize: nat)
    requires Valid(p, a) && Valid(p, b) && PublishGuard(a, b, logSize)
    requires a.job.status != Running
    ensures SameOutcome(a, b)
  {
    assert b.result.value.status == a.result.value.status;
  }

  /** A guarded write that keeps the cursors extends the state it replaces. */
  lemma GuardExtends(p: Policy, a: PersistedState, b: PersistedState, logSize: nat)
    requires Valid(p, a) && Valid(p, b) && PublishGuard(a, b, logSize)
    requires forall session :: CursorOf(a.observers, session) <= CursorOf(b.observers, session)
    ensures Extends(a, b)
  {
    if a.job.status != Running { GuardFreezesOutcome(p, a, b, logSize); }
  }

  lemma ExtendsTransitive(a: PersistedState, b: PersistedState, c: PersistedState)
    requires Extends(a, b) && Extends(b, c)
    ensures Extends(a, c)
  {
    forall session ensures CursorOf(a.observers, session) <= CursorOf(c.observers, session) {
      assert CursorOf(a.observers, session) <= CursorOf(b.observers, session);
    }
  }

  // ---------------------------------------------------------------- every writer builds a valid state

  /** No stamp in the state lies after the clock, except where it was raised to a creation or start time. */
  ghost predicate ClockBound(s: PersistedState, now: int) {
    && (forall i :: 0 <= i < |s.observers| ==> s.observers[i].updatedAt <= Max(now, s.job.createdAt))
    && (s.cancellation.Some? ==> s.cancellation.value.requestedAt <= Max(now, s.job.createdAt))
  }

  /** What holds of every state the store ever committed, beyond what the validator checks: a
      cancelled job was asked to cancel, and a job asked to cancel ends cancelled or lost. */
  ghost predicate CancelConsistent(s: PersistedState) {
    && (s.job.status == Cancelled ==> s.cancellation.Some?)
    && (s.cancellation.Some? && s.job.status != Running ==> s.job.status in {Cancelled, RunnerLost})
    && (s.job.status == OutputLimit ==> s.job.captured == s.job.outputLimit)
  }

  ghost predicate Committed(p: Policy, s: PersistedState, now: int) {
    Valid(p, s) && ClockBound(s, now) && CancelConsistent(s)
  }

  lemma InitialCommitted(p: Policy, r: StartRequest, started: int, now: int)
    requires 0 < r.outputLimit <= p.captureLimit && p.pathAllowed(r.workspace, r.cwd)
    ensures Committed(p, InitialState(r, started), now)
  {}

  lemma AppendedCommitted(p: Policy, s: PersistedState, incoming: nat, now: int)
    requires Committed(p, s, now) && s.job.status == Running
    ensures AcceptedBytes(p, s.job.captured, incoming, s.job.outputLimit).Some?
    ensures var accepted := AcceptedBytes(p, s.job.captured, incoming, s.job.outputLimit).value;
      Committed(p, Appended(s, accepted), now) && Extends(s, Appended(s, accepted))
  {}

  lemma CancelCommitted(p: Policy, s: PersistedState, now: int, logSize: nat)
    requires Committed(p, s, now) && EvaluateCancellation(s) == Requested && s.job.captured <= logSize
    ensures var next := CancelRequested(s, now, s.job.owner);
      Committed(p, next, now) && PublishGuard(s, next, logSize) && Extends(s, next)
  {}

  lemma CursorAfterUpdate(observers: seq<Observer>, session: SessionId, next: Observer, other: SessionId)
    requires next.session == session
    ensures var i := ObserverIndex(observers, session);
      CursorOf(if i < |observers| then observers[i := next] else observers + [next], other)
        == if other == session then next.cursor else CursorOf(observers, other)
  {
    var i := ObserverIndex(observers, session);
    var after := if i < |observers| then observers[i := next] else observers + [next];
    var k, l := ObserverIndex(after, other), ObserverIndex(observers, other);
    if other == session {
      assert after[i] == next;
      assert k == i;
    } else {
      assert forall m :: 0 <= m < |observers| && m != i ==> after[m] == observers[m];
      if l < |observers| {
        assert after[l] == observers[l];
        assert k == l;
      } else {
        assert forall m :: 0 <= m < |after| ==> after[m].session != other;
        assert k == |after|;
      }
    }
  }

  /** A prepared wait is acceptable to every later state: its range lay inside an earlier capture and
      its stamp is no later than the clock. */
  ghost predicate ChunkFits(s: PersistedState, chunk: Chunk, updatedAt: int, now: int) {
    && 0 <= chunk.next <= chunk.captured <= s.job.captured
    && s.job.createdAt <= updatedAt <= Max(now, s.job.createdAt)
  }

  /** The committed observer list passes the validator and the field guard. */
  lemma WaitCommitAccepted(p: Policy, s: PersistedState, session: SessionId, chunk: Chunk, updatedAt: int,
                           now: int, logSize: nat)
    requires Committed(p, s, now) && ChunkFits(s, chunk, updatedAt, now) && s.job.captured <= logSize
    ensures var r := WaitCommitted(p, s, session, chunk, updatedAt);
      && !r.Rejected?
      && (r.Replaced? ==> Committed(p, r.next, now) && PublishGuard(s, r.next, logSize))
  {
    var r := WaitCommitted(p, s, session, chunk, updatedAt);
    if r.Replaced? {
      var i := ObserverIndex(s.observers, session);
      assert forall m :: 0 <= m < |r.next.observers| && m != i ==> r.next.observers[m] == s.observers[m];
      assert r.next.observers[i] == Observer(session, chunk.next, FinishBound(s, updatedAt));
    }
  }

  lemma WaitCommitCommitted(p: Policy, s: PersistedState, session: SessionId, chunk: Chunk, updatedAt: int,
                            now: int, logSize: nat)
    requires Committed(p, s, now) && ChunkFits(s, chunk, updatedAt, now) && s.job.captured <= logSize
    ensures var r := WaitCommitted(p, s, session, chunk, updatedAt);
      && !r.Rejected?
      && (r.Replaced? ==>
            && Committed(p, r.next, now) && PublishGuard(s, r.next, logSize) && Extends(s, r.next)
            && CursorOf(r.next.observers, session) == chunk.next)
      && (r.Unchanged? ==> chunk.next <= CursorOf(s.observers, session))
  {
    hide Valid, PublishGuard, Extends;
    WaitCommitAccepted(p, s, session, chunk, updatedAt, now, logSize);
    var r := WaitCommitted(p, s, session, chunk, updatedAt);
    if r.Replaced? {
      var next := Observer(session, chunk.next, FinishBound(s, updatedAt));
      CursorAfterUpdate(s.observers, session, next, session);
      forall other ensures CursorOf(s.observers, other) <= CursorOf(r.next.observers, other) {
        CursorAfterUpdate(s.observers, session, next, other);
      }
      GuardExtends(p, s, r.next, logSize);
    }
  }

  /** What the guardian and the supervision loop deliver: an exit code of a process or a signal number. */
  predicate OutcomeInRange(o: Outcome) {
    && SignalInRange(o.wait.signal)
    && (o.cause == Normal && o.wait.signal.None? ==> o.wait.exitCode.Some? && 0 <= o.wait.exitCode.value <= 255)
  }

  /** What the supervision loop guarantees of an outcome: a cancellation it noticed is persisted, and a
      limit it noticed has been reached. */
  predicate Supervised(s: PersistedState, o: Outcome) {
    && OutcomeInRange(o)
    && (o.cause == CancelledCause ==> s.cancellation.Some?)
    && (o.cause == LimitCause ==> s.job.captured == s.job.outputLimit)
  }

  /** A terminal write is accepted, and the cause it records is the one the protocol promises. */
  lemma TerminalCommitted(p: Policy, s: PersistedState, o: Outcome, now: int, logSize: nat)
    requires Committed(p, s, now) && s.job.status == Running && s.job.captured <= logSize && Supervised(s, o)
    ensures var next := TerminalState(s, o, now);
      && next.Some? && next.value.job.status != Running
      && TransitionAllowed(s.job.status, next.value.job.status)
      && Committed(p, next.value, now) && PublishGuard(s, next.value, logSize) && Extends(s, next.value)
      && (s.cancellation.Some? <==> next.value.job.status == Cancelled)
  {}

  lemma RunnerLostCommitted(p: Policy, s: PersistedState, now: int, logSize: nat)
    requires Committed(p, s, now) && s.job.status == Running && s.job.captured <= logSize
    ensures var next := RunnerLostState(s, now);
      Committed(p, next, now) && PublishGuard(s, next, logSize) && Extends(s, next)
  {}

  lemma CommittedLater(p: Policy, s: PersistedState, now: int, later: int)
    requires Committed(p, s, now) && now <= later
    ensures Committed(p, s, later)
  {}
}
