/** What the store's records say, field by field: which of the values at hand each of them carries. */
module JobRecords {
  import opened JobState
  import opened JobProtocol
  import WaitLoop

  predicate LaterOf(t: int, a: int, b: int) { a <= t && b <= t && (t == a || t == b) }

  /** `t` publishes an outcome over `s` and changes nothing else. */
  predicate Publishes(s: PersistedState, t: PersistedState, now: int) {
    && t.(job := t.job.(status := s.job.status, finishedAt := s.job.finishedAt), result := s.result) == s
    && t.result.Some? && t.result.value.status == t.job.status && t.result.value.captured == s.job.captured
    && t.job.finishedAt == Some(t.result.value.finishedAt) && LaterOf(t.result.value.finishedAt, now, s.job.startedAt)
  }

  // ---------------------------------------------------------------- what the checks let through

  /** Which results are valid: an exit code exactly where a process ended by itself, a signal only where one may have
      ended it, both in their range. */
  lemma ResultsExactly(r: ProcessResult)
    ensures ValidProcessResult(r) <==>
      && r.status != Running
      && (r.exitCode.Some? <==> r.status == Succeeded || r.status == NonzeroExit)
      && (r.status == Succeeded ==> r.exitCode == Some(0))
      && (r.status == NonzeroExit ==> 1 <= r.exitCode.value <= 255)
      && (r.signal.Some? ==> r.status in {SignalExit, Cancelled, HardTimeout, OutputLimit} && 1 <= r.signal.value <= 64)
      && (r.status == SignalExit ==> r.signal.Some?)
      && (r.status == RunnerLost ==> r.diagnostic.Some? && r.diagnostic.value != "")
  {}

  /** What a guarded write may change: the observers, the status, and what was not there before; never the captured
      count, which the log must hold. */
  lemma GuardExactly(a: PersistedState, b: PersistedState, logSize: nat)
    ensures PublishGuard(a, b, logSize) <==>
      && b.(observers := a.observers, cancellation := a.cancellation, result := a.result,
            job := b.job.(status := a.job.status, finishedAt := a.job.finishedAt)) == a
      && (a.cancellation.Some? ==> b.cancellation == a.cancellation) && (a.result.Some? ==> b.result == a.result)
      && (a.job.finishedAt.Some? ==> b.job.finishedAt == a.job.finishedAt)
      && b.job.captured <= logSize
  {}

  /** A running job may come to any end; an end is final. */
  lemma TransitionsExactly(from: Status, to: Status)
    ensures from == Running ==> TransitionAllowed(from, to)
    ensures from != Running ==> (TransitionAllowed(from, to) <==> to == from)
    ensures MayRemove(from) <==> from in {Succeeded, NonzeroExit, SignalExit, Cancelled, HardTimeout, OutputLimit, RunnerLost}
  {}

  // ---------------------------------------------------------------- what the records say

  /** The start: every field comes from the request, and a job does not start before it was created. */
  lemma InitialRecord(r: StartRequest, started: int)
    ensures var s := InitialState(r, started);
      && s.job.id == r.jobId && s.job.command == r.command && s.job.cwd == r.cwd && s.job.workspace == r.workspace
      && s.job.owner == r.session && s.job.hardTimeout == r.hardTimeout && s.job.outputLimit == r.outputLimit
      && s.job.createdAt == r.createdAt && LaterOf(s.job.startedAt, started, r.createdAt)
      && s.job.status == Running && s.job.captured == 0 && s.job.finishedAt.None?
      && s.session == Session(1, r.session, r.workspace, r.createdAt) && s.schemaVersion == 1
      && s.observers == [] && s.cancellation.None? && s.result.None?
  {}

  /** The end of a supervised job: the exit code or the signal of the outcome, and what decides between them. */
  lemma TerminalRecord(s: PersistedState, o: Outcome, now: int)
    ensures var next := TerminalState(s, o, now);
      && (next.None? <==>
            s.cancellation.None? && o.cause == Normal && o.wait.signal.None?
            && (o.wait.exitCode.None? || !(0 <= o.wait.exitCode.value <= 255)))
      && (next.Some? ==>
            var t := next.value;
            var result := t.result.value;
            && Publishes(s, t, now) && result.diagnostic.None?
            && (s.cancellation.Some? || o.cause == CancelledCause ==> result.status == Cancelled)
            && (s.cancellation.None? && o.cause == LimitCause ==> result.status == OutputLimit)
            && (s.cancellation.None? && o.cause == TimeoutCause ==> result.status == HardTimeout)
            && (s.cancellation.Some? || o.cause != Normal ==> result.exitCode.None? && result.signal == o.wait.signal)
            && (s.cancellation.None? && o.cause == Normal && o.wait.signal.Some? ==>
                  result.status == SignalExit && result.exitCode.None? && result.signal == o.wait.signal)
            && (s.cancellation.None? && o.cause == Normal && o.wait.signal.None? ==>
                  && result.exitCode == o.wait.exitCode && result.signal.None?
                  && result.status == if o.wait.exitCode == Some(0) then Succeeded else NonzeroExit))
  {}

  /** The end of a job whose runner is gone: neither exit code nor signal is known. */
  lemma LostRecord(s: PersistedState, now: int)
    ensures var t := RunnerLostState(s, now);
      && Publishes(s, t, now) && t.job.status == RunnerLost
      && t.result.value.exitCode.None? && t.result.value.signal.None?
      && t.result.value.diagnostic.Some? && t.result.value.diagnostic.value != ""
    ensures Reconciled(s, now) == if s.job.status == Running then RunnerLostState(s, now) else s
  {}

  /** An append moves the captured count and nothing else. */
  lemma AppendRecord(s: PersistedState, accepted: nat)
    ensures var t := Appended(s, accepted);
      t.job.captured == s.job.captured + accepted && t.(job := t.job.(captured := s.job.captured)) == s
  {}

  /** A cancellation carries its actor and its time and changes nothing else. */
  lemma CancelRecord(s: PersistedState, now: int, actor: SessionId)
    ensures var t := CancelRequested(s, now, actor);
      && t.(cancellation := s.cancellation) == s && t.cancellation.Some?
      && t.cancellation.value.requested && t.cancellation.value.requestedBy == actor
      && LaterOf(t.cancellation.value.requestedAt, now, s.job.createdAt)
  {}

  /** It is written exactly by the owner of a running job without one. */
  lemma CancelWrittenExactly(s: PersistedState, now: int, actor: SessionId)
    ensures CancelCandidate(s, now, actor) ==
      if s.job.owner == actor && s.cancellation.None? && s.job.status == Running then Some(CancelRequested(s, now, actor)) else None
  {}

  /** A committed wait: one entry for its session, with its cursor and its stamp, in the old place or at the end. */
  lemma ObserverRecord(p: Policy, s: PersistedState, session: SessionId, chunk: Chunk, updatedAt: int)
    requires WaitCommitted(p, s, session, chunk, updatedAt).Replaced?
    ensures var t := WaitCommitted(p, s, session, chunk, updatedAt).next;
      && t.(observers := s.observers) == s
      && exists i :: 0 <= i < |t.observers| && IsEntry(s, t, i, session, chunk, updatedAt)
  {
    var t := WaitCommitted(p, s, session, chunk, updatedAt).next;
    assert IsEntry(s, t, ObserverIndex(s.observers, session), session, chunk, updatedAt);
  }

  predicate IsEntry(s: PersistedState, t: PersistedState, i: int, session: SessionId, chunk: Chunk, updatedAt: int)
    requires 0 <= i < |t.observers|
  {
    var entry := t.observers[i];
    && entry.session == session && entry.cursor == chunk.next
    && (s.job.finishedAt.None? ==> entry.updatedAt == updatedAt)
    && (s.job.finishedAt.Some? ==> LaterOf(-entry.updatedAt, -updatedAt, -s.job.finishedAt.value))
    && (if i < |s.observers| then s.observers[i].session == session && t.observers == s.observers[i := entry]
        else t.observers == s.observers + [entry] && forall o :: o in s.observers ==> o.session != session)
  }

  /** The outcome of a wait commit: nothing where the session is already that far, refused where the range is not
      one of a capture within the policy. */
  lemma CommitOutcomeExactly(p: Policy, s: PersistedState, session: SessionId, chunk: Chunk, updatedAt: int)
    ensures var outcome := WaitCommitted(p, s, session, chunk, updatedAt);
      && (outcome.Unchanged? <==> exists i :: FirstEntry(s, session, i) && s.observers[i].cursor >= chunk.next)
      && (outcome.Rejected? <==> !outcome.Unchanged? && !(0 <= chunk.next <= chunk.captured <= p.captureLimit))
  {
    var i := ObserverIndex(s.observers, session);
    assert i < |s.observers| ==> FirstEntry(s, session, i);
  }

  /** The session's entry is at `i`. */
  predicate FirstEntry(s: PersistedState, session: SessionId, i: int) {
    0 <= i < |s.observers| && s.observers[i].session == session && forall k :: 0 <= k < i ==> s.observers[k].session != session
  }

  /** When a wait is stamped: now, but not before the job was created nor after it was seen finished. */
  lemma StampRecord(snap: PersistedState, now: int)
    ensures snap.job.finishedAt.None? ==> LaterOf(WaitStamp(snap, now), now, snap.job.createdAt)
    ensures snap.job.finishedAt.Some? ==> WaitStamp(snap, now) <= snap.job.finishedAt.value
    ensures snap.job.finishedAt.Some? && now <= snap.job.finishedAt.value && snap.job.createdAt <= snap.job.finishedAt.value ==>
      LaterOf(WaitStamp(snap, now), now, snap.job.createdAt)
  {}

  /** Where a wait starts: at its explicit cursor, else where the session's last one ended, else at the beginning. */
  lemma StartRecord(s: PersistedState, session: SessionId, explicit: Option<int>)
    ensures explicit.Some? ==> ResolveStart(s, session, explicit) == explicit.value
    ensures explicit.None? && (forall o :: o in s.observers ==> o.session != session) ==> ResolveStart(s, session, explicit) == 0
    ensures forall i :: FirstEntry(s, session, i) && explicit.None? && s.observers[i].cursor >= 0 ==>
      ResolveStart(s, session, explicit) == s.observers[i].cursor
  {}

  /** The start of an answer is where the store resolves it, for every state with the cursor the scene had then. */
  lemma StartIsResolved(scene: WaitLoop.Scene, at: int, s: PersistedState, session: SessionId, explicit: Option<int>, start: int)
    requires CursorOf(s.observers, session) == scene.cursorAt(at)
    requires explicit.Some? ==> start == explicit.value
    requires explicit.None? && scene.cursorAt(at) >= 0 ==> start == scene.cursorAt(at)
    requires explicit.None? && scene.cursorAt(at) < 0 ==> start == 0
    ensures start == ResolveStart(s, session, explicit)
  {}
}
