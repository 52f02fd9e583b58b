/** One job directory as the store's operations change it, each run uninterrupted under its locks. The
    contracts give the whole new directory; JobProtocol interleaves the same writes step by step. */
module JobDirectory {
  import opened JobState
  import opened JobProtocol
  import opened PartialWrites

  datatype AppendResult = AppendFailed | AppendedBytes(accepted: nat, limitReached: bool)

  datatype CancelResult = CancelDenied | CancelFailed | CancelAnswered(code: CancelCode, cancellation: Option<Cancellation>)

  datatype CommitStatus = CommitFailed | CommitUnchanged | CommitWritten

  datatype RemoveResult = RemoveMissing | RemoveDenied | RemoveActive | RemoveLocked | Removed

  /** Which of a removal's three tries at `runner.lock` find it held. */
  datatype LockTries = LockTries(probe: bool, reconcile: bool, erase: bool)

  /** The runner's hold on `runner.lock`: an open locked file until it is released. */
  class RunnerLease {
    var held: bool

    constructor ()
      ensures held
    {
      held := true;
    }

    method Release()
      modifies this
      ensures !held
    {
      held := false;
    }
  }

  /** What a cancel makes of a state. */
  function CancelEffect(s: PersistedState, now: int, actor: SessionId): PersistedState {
    var next := CancelCandidate(s, now, actor);
    if next.Some? then next.value else s
  }

  /** What the last step of a removal makes of file, log and intent. */
  function EraseEffect(s: PersistedState, log: seq<Byte>, intent: bool, actor: SessionId): (Option<PersistedState>, seq<Byte>, bool) {
    if s.job.owner == actor && MayRemove(s.job.status) then (None, [], false) else (Some(s), log, intent)
  }

  /** A running snapshot whose runner seems to live is not removed. */
  predicate StopsRemoval(s: PersistedState, tries: LockTries) {
    s.job.status == Running && (tries.probe || tries.reconcile)
  }

  class Directory {
    var file: Option<PersistedState>
    var log: seq<Byte>
    var intent: bool

    /** What the store's own operations leave behind at time `now`. */
    ghost predicate Stored(p: Policy, now: int)
      reads this
    {
      file.Some? ==> Committed(p, file.value, now) && file.value.job.captured <= |log|
    }

    constructor (r: StartRequest, started: int)
      ensures file == Some(InitialState(r, started)) && log == [] && !intent
    {
      file := Some(InitialState(r, started));
      log := [];
      intent := false;
    }

    /** Writes `raw` at `offset` through writes of any size; a failed write may leave part of it. */
    method WriteAt(raw: seq<Byte>, offset: nat, sizes: seq<nat>) returns (ok: bool)
      requires offset <= |log|
      modifies this`log
      ensures ok <==> Carries(sizes, |raw|)
      ensures ok ==> log == Overwrite(old(log), offset, raw)
      ensures !ok ==> exists n :: 0 <= n < |raw| && log == Overwrite(old(log), offset, raw[..n])
      ensures |log| >= old(|log|) && log[..offset] == old(log[..offset])
    {
      var done := 0;
      var calls := 0;
      assert raw[..0] == [] && Overwrite(log, offset, []) == log;
      while done < |raw|
        invariant 0 <= done <= |raw| && 0 <= calls <= |sizes|
        invariant |log| >= old(|log|) && offset + done <= |log|
        invariant log == Overwrite(old(log), offset, raw[..done])
        invariant Carries(sizes[calls..], |raw| - done) <==> Carries(sizes, |raw|)
        decreases |sizes| - calls
      {
        var written := Taken(sizes[calls..], |raw| - done);
        if written == 0 { return false; }
        assert sizes[calls..][1..] == sizes[calls + 1..];
        ghost var before := log;
        log := Overwrite(log, offset + done, raw[done..done + written]);
        OverwriteAppends(old(log), offset, raw, done, written);
        done := done + written;
        calls := calls + 1;
      }
      assert raw[..done] == raw;
      return true;
    }

    /** The guarded write of everything except captured output. */
    method PublishStateLocked(p: Policy, next: PersistedState) returns (ok: bool)
      requires file.Some?
      modifies this`file
      ensures ok <==> PublishGuard(old(file.value), next, |log|) && Valid(p, next)
      ensures file == if ok then Some(next) else old(file)
    {
      ok := PublishGuard(file.value, next, |log|);
      if ok {
        ok := ValidatePersistedState(p, next);
        if ok { file := Some(next); }
      }
    }

    /** Appends as much as fits, bytes first, state last. */
    method AppendOutput(p: Policy, incoming: seq<Byte>, sizes: seq<nat>, ghost now: int) returns (r: AppendResult)
      requires Stored(p, now)
      modifies this
      ensures Stored(p, now) && intent == old(intent)
      ensures r.AppendedBytes? <==>
        && old(file).Some? && old(file.value).job.status == Running
        && var accepted := AcceptedBytes(p, old(file.value).job.captured, |incoming|, old(file.value).job.outputLimit);
           accepted.Some? && Carries(sizes, accepted.value)
      ensures old(file).None? ==> file == old(file) && log == old(log)
      ensures old(file).Some? ==>
        var s := old(file.value);
        && s.job.captured <= |log| && log[..s.job.captured] == old(log)[..s.job.captured]
        && (r.AppendFailed? ==> file == old(file))
        && (r.AppendedBytes? ==>
              && AcceptedBytes(p, s.job.captured, |incoming|, s.job.outputLimit) == Some(r.accepted)
              && file == Some(Appended(s, r.accepted))
              && r.accepted <= |incoming|
              && s.job.captured + r.accepted <= |log|
              && log[..s.job.captured + r.accepted] == old(log)[..s.job.captured] + incoming[..r.accepted]
              && (r.limitReached <==> s.job.captured + |incoming| >= s.job.outputLimit))
    {
      if file.None? || file.value.job.status != Running { return AppendFailed; }
      var s := file.value;
      AppendedCommitted(p, s, |incoming|, now);
      var accepted := AcceptedBytes(p, s.job.captured, |incoming|, s.job.outputLimit).value;
      var captured := s.job.captured + accepted;
      r := AppendedBytes(accepted, captured == s.job.outputLimit);
      if accepted == 0 {
        assert Appended(s, 0) == s;
        assert incoming[..0] == [];
        return;
      }
      var ok := WriteAt(incoming[..accepted], s.job.captured, sizes);
      if !ok { return AppendFailed; }
      assert log[..captured] == log[..s.job.captured] + log[s.job.captured..captured];
      file := Some(Appended(s, accepted));
    }

    /** Under `state.lock`: owner only, written once, and only while the job runs. */
    method CancelLocked(p: Policy, actor: SessionId, now: int) returns (r: CancelResult)
      requires file.Some? && Stored(p, now)
      modifies this`file
      ensures Stored(p, now)
      ensures file == Some(CancelEffect(old(file.value), now, actor))
      ensures r.CancelDenied? <==> old(file.value).job.owner != actor
      ensures !r.CancelFailed?
      // a repeated request is told apart from one that comes too late
      ensures r.CancelAnswered? ==>
        && (r.code == AlreadyRequested <==> old(file.value).cancellation.Some?)
        && (r.code == AlreadyTerminal <==> old(file.value).cancellation.None? && old(file.value).job.status != Running)
        && (r.code == Requested ==> r.cancellation == Some(Cancellation(true, Max(now, old(file.value).job.createdAt), actor)))
      ensures r.CancelAnswered? ==>
        r.cancellation == file.value.cancellation
    {
      var s := file.value;
      if s.job.owner != actor { return CancelDenied; }
      var code := EvaluateCancellation(s);
      if code == Requested {
        CancelCommitted(p, s, now, |log|);
        var ok := PublishStateLocked(p, CancelRequested(s, now, actor));
        if !ok { return CancelFailed; }
      }
      return CancelAnswered(code, file.value.cancellation);
    }

    /** Commits a wait's cursor; a cursor that is already as far stays. */
    method CommitWaitLocked(p: Policy, session: SessionId, chunk: Chunk, updatedAt: int, ghost now: int)
      returns (r: CommitStatus)
      requires file.Some? && Stored(p, now)
      modifies this`file
      ensures var outcome := WaitCommitted(p, old(file.value), session, chunk, updatedAt);
        && (r == CommitUnchanged <==> outcome.Unchanged?)
        && (r == CommitWritten <==> outcome.Replaced? && PublishGuard(old(file.value), outcome.next, |log|) && Valid(p, outcome.next))
        && file == if r == CommitWritten then Some(outcome.next) else old(file)
      // what a prepared wait commits is never refused
      ensures ChunkFits(old(file.value), chunk, updatedAt, now) ==>
        && Stored(p, now) && r != CommitFailed
        && CursorOf(file.value.observers, session) == Max(chunk.next, CursorOf(old(file.value).observers, session))
    {
      var s := file.value;
      if ChunkFits(s, chunk, updatedAt, now) { WaitCommitCommitted(p, s, session, chunk, updatedAt, now, |log|); }
      var index := 0;
      while index < |s.observers| && s.observers[index].session != session
        invariant 0 <= index <= |s.observers|
        invariant forall k :: 0 <= k < index ==> s.observers[k].session != session
      {
        index := index + 1;
      }
      assert index == ObserverIndex(s.observers, session);
      if index < |s.observers| && s.observers[index].cursor >= chunk.next { return CommitUnchanged; }
      if !(0 <= chunk.captured <= p.captureLimit && 0 <= chunk.next <= chunk.captured) { return CommitFailed; }
      var next := Observer(session, chunk.next, FinishBound(s, updatedAt));
      var observers := if index < |s.observers| then s.observers[index := next] else s.observers + [next];
      var ok := PublishStateLocked(p, s.(observers := observers));
      return if ok then CommitWritten else CommitFailed;
    }

    /** The runner's publication: intent, state, intent gone, lease released. */
    method PublishTerminal(p: Policy, lease: RunnerLease, outcome: Outcome, now: int) returns (ok: bool)
      requires file.Some? && Stored(p, now)
      modifies this`file, this`intent, lease
      ensures ok ==> old(lease.held) && !old(intent) && old(file.value).job.status == Running
      // what the supervision loop hands over is never refused
      ensures Supervised(old(file.value), outcome) ==>
        && Stored(p, now)
        && (ok <==> old(lease.held) && !old(intent) && old(file.value).job.status == Running)
      ensures ok ==> file == TerminalState(old(file.value), outcome, now) && !intent && !lease.held
      ensures !ok ==> file == old(file) && lease.held == old(lease.held) && intent == old(intent)
    {
      if !lease.held { return false; }
      if intent { return false; }
      intent := true;
      var cur := file.value;
      var next := TerminalState(cur, outcome, now);
      ok := next.Some? && next.value.job.status != cur.job.status
            && TransitionAllowed(cur.job.status, next.value.job.status);
      if ok {
        if Supervised(cur, outcome) { TerminalCommitted(p, cur, outcome, now, |log|); }
        ok := PublishStateLocked(p, next.value);
      }
      intent := false;
      if ok { lease.Release(); }
    }

    /** `runnerActive` is the outcome of the one try at `runner.lock`. */
    method Reconcile(p: Policy, cancel: Option<SessionId>, runnerActive: bool, now: int) returns (active: bool)
      requires Stored(p, now)
      modifies this`file, this`intent
      ensures Stored(p, now)
      ensures old(file).None? || (old(file.value).job.status != Running && !old(intent)) ==>
        !active && file == old(file) && intent == old(intent)
      ensures old(file).Some? && (old(file.value).job.status == Running || old(intent)) ==> active == runnerActive
      ensures active ==>
        && intent == old(intent)
        && file == if cancel.Some? && !old(intent) then Some(CancelEffect(old(file.value), now, cancel.value)) else old(file)
      ensures !active && old(file).Some? ==>
        && !intent
        && file == Some(Reconciled(old(file.value), now))
    {
      if file.None? || (file.value.job.status != Running && !intent) { return false; }
      if runnerActive {
        if cancel.Some? && !intent { var _ := CancelLocked(p, cancel.value, now); }
        return true;
      }
      if file.value.job.status != Running {
        intent := false;
        return false;
      }
      intent := true;
      RunnerLostCommitted(p, file.value, now, |log|);
      var _ := PublishStateLocked(p, RunnerLostState(file.value, now));
      intent := false;
      return false;
    }

    /** Under `runner.lock` and `state.lock`: only what is owned and terminal goes. */
    method EraseLocked(actor: SessionId) returns (r: RemoveResult)
      requires file.Some?
      modifies this
      ensures (file, log, intent) == EraseEffect(old(file.value), old(log), old(intent), actor)
      ensures r == if old(file.value).job.owner != actor then RemoveDenied
                   else if old(file.value).job.status == Running then RemoveActive else Removed
    {
      if file.value.job.owner != actor { return RemoveDenied; }
      if !MayRemove(file.value.job.status) { return RemoveActive; }
      file, log, intent := None, [], false;
      return Removed;
    }

    /** Removal probes and reconciles a running snapshot, then takes `runner.lock` itself and erases. */
    method RemoveTerminal(p: Policy, actor: SessionId, tries: LockTries, now: int) returns (r: RemoveResult)
      requires Stored(p, now)
      modifies this
      ensures Stored(p, now)
      ensures r == RemoveMissing <==> old(file).None?
      ensures r == RemoveDenied <==> old(file).Some? && old(file.value).job.owner != actor
      ensures r == RemoveActive <==>
        old(file).Some? && old(file.value).job.owner == actor && StopsRemoval(old(file.value), tries)
      ensures r == RemoveLocked <==>
        old(file).Some? && old(file.value).job.owner == actor && !StopsRemoval(old(file.value), tries) && tries.erase
      ensures r == Removed ==> file.None? && log == [] && !intent
      // a removal that comes too late for the last lock has reconciled the job
      ensures r == RemoveLocked && old(file.value).job.status == Running ==>
        file == Some(Reconciled(old(file.value), now)) && log == old(log) && !intent
      ensures r != Removed && !(r == RemoveLocked && old(file.value).job.status == Running) ==>
        file == old(file) && log == old(log) && intent == old(intent)
    {
      if file.None? { return RemoveMissing; }
      if file.value.job.owner != actor { return RemoveDenied; }
      if file.value.job.status == Running {
        if tries.probe { return RemoveActive; }
        var active := Reconcile(p, None, tries.reconcile, now);
        if active { return RemoveActive; }
      }
      if tries.erase { return RemoveLocked; }
      r := EraseLocked(actor);
    }
  }

  lemma OverwriteAppends(log: seq<Byte>, offset: nat, raw: seq<Byte>, done: nat, written: nat)
    requires offset <= |log| && done + written <= |raw|
    ensures Overwrite(Overwrite(log, offset, raw[..done]), offset + done, raw[done..done + written])
         == Overwrite(log, offset, raw[..done + written])
  {
    var a := Overwrite(Overwrite(log, offset, raw[..done]), offset + done, raw[done..done + written]);
    var b := Overwrite(log, offset, raw[..done + written]);
    assert raw[..done + written] == raw[..done] + raw[done..done + written];
    assert |a| == |b|;
    assert forall i :: 0 <= i < |a| ==> a[i] == b[i];
  }
}
