/** The store protocol does what it is for: every operation that finds its locks free and is left alone runs to its
    end, and what it leaves is what its caller asked for, in the words of the directory's records. */
module JobOrdinary {
  import opened JobState
  import opened JobProtocol
  import opened JobInvariant
  import opened JobTheorems
  import opened JobProgress

  /** The process stands at `pc` and is otherwise as before. */
  ghost predicate Stands(w: World, v: World, pid: Pid, pc: PC) {
    pid in w.procs && pid in v.procs && v.procs[pid] == w.procs[pid].(pc := pc)
  }

  /** Outside `locks`, nothing was locked or unlocked. */
  ghost predicate SameBut(w: World, v: World, locks: set<Lock>) {
    forall l :: l !in locks ==> (l in v.owner <==> l in w.owner)
  }

  /** `v` is reached by moves of `pid` alone, none of them a crash or a surrender. */
  ghost predicate Runs(p: Policy, w: World, pid: Pid, actions: seq<Action>, v: World) {
    Alone(p, w, pid, actions) == Some(v) && forall a :: a in actions ==> Orderly(a) && !a.Tick?
  }

  lemma RunsNot(p: Policy, w: World, pid: Pid)
    ensures Runs(p, w, pid, [], w)
  {}

  lemma RunsThen(p: Policy, w: World, pid: Pid, a: Action, u: World, rest: seq<Action>, v: World)
    requires Step(p, w, pid, a) == Some(u) && Orderly(a) && !a.Tick? && Runs(p, u, pid, rest, v)
    ensures Runs(p, w, pid, [a] + rest, v)
  {
    hide Step;
    assert ([a] + rest)[1..] == rest;
  }

  lemma RunsOn(p: Policy, w: World, pid: Pid, first: seq<Action>, u: World, second: seq<Action>, v: World)
    requires Runs(p, w, pid, first, u) && Runs(p, u, pid, second, v)
    ensures Runs(p, w, pid, first + second, v)
  {
    hide Step;
    AloneThen(p, w, pid, first, second);
  }

  // ---------------------------------------------------------------- single moves

  lemma Locks(p: Policy, w: World, pid: Pid, lock: Lock) returns (v: World)
    requires Inv(p, w) && pid in w.procs && LockPc(w.procs[pid].pc) && WaitsFor(w.procs[pid].pc) == Some(lock) && lock !in w.owner
    ensures Step(p, w, pid, Advance) == Some(v) && Inv(p, v)
    ensures v.dir == w.dir && Stands(w, v, pid, AfterLock(w.procs[pid].pc)) && SameBut(w, v, {lock})
  {
    hide Inv, WriteThen, MutateStep, CommitAppend, EraseStep, ObserveStep, TryRunnerStep, TookStep;
    v := Acquire(w, pid, lock, AfterLock(w.procs[pid].pc));
    StepInv(p, w, pid, Advance);
  }

  /** A move that only changes the position. */
  lemma Goes(p: Policy, w: World, pid: Pid, a: Action, pc: PC) returns (v: World)
    requires Inv(p, w) && pid in w.procs && Step(p, w, pid, a) == Some(Goto(w, pid, pc))
    ensures Step(p, w, pid, a) == Some(v) && Inv(p, v) && v.dir == w.dir && v.owner == w.owner && Stands(w, v, pid, pc)
  {
    hide Inv, Step;
    v := Goto(w, pid, pc);
    StepInv(p, w, pid, a);
  }

  lemma {:induction false} Closes(p: Policy, w: World, pid: Pid) returns (actions: seq<Action>, v: World)
    requires Inv(p, w) && pid in w.procs && w.procs[pid].pc.Closing? && w.procs[pid].pc.held != {}
    ensures Runs(p, w, pid, actions, v) && Inv(p, v) && v.dir == w.dir && pid in v.procs
    ensures v.procs[pid] == w.procs[pid].(pc := Idle, lease := w.procs[pid].lease && RunnerLock !in w.procs[pid].pc.held)
    ensures SameBut(w, v, w.procs[pid].pc.held) && forall l :: l in w.procs[pid].pc.held ==> l !in v.owner
    decreases |w.procs[pid].pc.held|
  {
    hide Inv, Step;
    var held := w.procs[pid].pc.held;
    var lock :| lock in held;
    var u := Releases(p, w, pid, lock);
    if held - {lock} == {} {
      assert held == {lock};
      RunsNot(p, u, pid);
      RunsThen(p, w, pid, Release(lock), u, [], u);
      actions, v := [Release(lock)] + [], u;
    } else {
      assert |held - {lock}| == |held| - 1;
      actions, v := Closes(p, u, pid);
      RunsThen(p, w, pid, Release(lock), u, actions, v);
      actions := [Release(lock)] + actions;
    }
  }

  lemma Releases(p: Policy, w: World, pid: Pid, lock: Lock) returns (v: World)
    requires Inv(p, w) && pid in w.procs && w.procs[pid].pc.Closing? && lock in w.procs[pid].pc.held
    ensures Step(p, w, pid, Release(lock)) == Some(v) && Inv(p, v) && v.dir == w.dir && pid in v.procs
    ensures var left := w.procs[pid].pc.held - {lock};
      v.procs[pid] == w.procs[pid].(pc := if left == {} then Idle else Closing(left), lease := w.procs[pid].lease && lock != RunnerLock)
    ensures SameBut(w, v, {lock}) && lock !in v.owner
  {
    hide Inv;
    v := ReleaseStep(w, pid, lock).value;
    StepInv(p, w, pid, Release(lock));
  }

  /** From the wait for the marker into the section under `state.lock`. */
  lemma Enters(p: Policy, w: World, pid: Pid) returns (actions: seq<Action>, v: World)
    requires Inv(p, w) && pid in w.procs && w.procs[pid].pc.AwaitNoIntent?
    requires w.dir.file.Some? && !w.dir.intent && StateLock !in w.owner
    ensures Runs(p, w, pid, actions, v) && Inv(p, v) && v.dir == w.dir
    ensures Stands(w, v, pid, Mutate(w.procs[pid].pc.op)) && SameBut(w, v, {StateLock})
  {
    hide Inv, Step;
    var op := w.procs[pid].pc.op;
    NoMarkerGoes(p, w, pid);
    var w1 := Goes(p, w, pid, Advance, AwaitState(op));
    var w2 := Locks(p, w1, pid, StateLock);
    NoMarkerGoes(p, w2, pid);
    v := Goes(p, w2, pid, Advance, Mutate(op));
    RunsNot(p, v, pid);
    RunsThen(p, w2, pid, Advance, v, [], v);
    RunsThen(p, w1, pid, Advance, w2, [Advance] + [], v);
    RunsThen(p, w, pid, Advance, w1, [Advance] + ([Advance] + []), v);
    actions := [Advance] + ([Advance] + ([Advance] + []));
  }

  lemma NoMarkerGoes(p: Policy, w: World, pid: Pid)
    requires pid in w.procs && (w.procs[pid].pc.AwaitNoIntent? || w.procs[pid].pc.CheckIntent?) && w.dir.file.Some? && !w.dir.intent
    ensures var pc := w.procs[pid].pc;
      Step(p, w, pid, Advance) == Some(Goto(w, pid, if pc.AwaitNoIntent? then AwaitState(pc.op) else Mutate(pc.op)))
  {
    hide WriteThen, MutateStep, CommitAppend, EraseStep, ObserveStep, TryRunnerStep, TookStep;
  }

  /** The write of a section under its locks, after which they are let go of. */
  lemma Writes(p: Policy, w: World, pid: Pid) returns (v: World)
    requires Inv(p, w) && pid in w.procs && WritePc(w.procs[pid].pc)
    ensures Step(p, w, pid, Advance) == Some(v) && Inv(p, v)
    ensures v.dir == w.dir.(file := if Candidate(p, w, pid).Some? then Candidate(p, w, pid) else w.dir.file)
    ensures v.owner == w.owner && Stands(w, v, pid, AfterWrite(w.procs[pid].pc))
  {
    hide Inv, AdvanceStep, Candidate, Valid, PublishGuard;
    var pc := AfterWrite(w.procs[pid].pc);
    v := WriteThen(p, w, pid, pc);
    WriteAdvances(p, w, pid);
    SomeCandidate(p, w, pid, pc);
    StepInv(p, w, pid, Advance);
  }

  // ---------------------------------------------------------------- the operations

  /** The chunk is handed in: what fits is counted, and nothing else changes but the log. */
  ghost predicate Appends(w: World, v: World, pid: Pid, data: seq<Byte>) {
    && w.dir.file.Some? && pid in w.procs && pid in v.procs
    && var s := w.dir.file.value;
       var captured := Min(s.job.captured + |data|, s.job.outputLimit);
       && v.dir.file == Some(s.(job := s.job.(captured := captured)))
       && v.dir.fed == w.dir.fed + data && v.dir.intent == w.dir.intent
       && v.procs[pid].lease == w.procs[pid].lease
       && (v.procs[pid].sawLimit <==> w.procs[pid].sawLimit || captured == s.job.outputLimit)
  }

  /** An append under `state.lock` ends with its bytes counted, as many as fit; the log then holds them, as it does
      in every reachable world. */
  lemma AppendGetsThrough(p: Policy, w: World, pid: Pid) returns (actions: seq<Action>, v: World)
    requires Inv(p, w) && pid in w.procs && w.procs[pid].pc.Mutate? && w.procs[pid].pc.op.Append? && StatusOf(w, Running)
    ensures Runs(p, w, pid, actions, v) && Inv(p, v) && Appends(w, v, pid, w.procs[pid].pc.op.data)
    ensures v.procs[pid].pc.Idle? && SameBut(w, v, {StateLock}) && StateLock !in v.owner
  {
    hide Inv, Step;
    var job, data := w.dir.file.value.job, w.procs[pid].pc.op.data;
    AppendRoom(p, w, pid);
    var first, u := FedIn(p, w, pid);
    var rest;
    rest, v := Closes(p, u, pid);
    RunsOn(p, w, pid, first, u, rest, v);
    actions := first + rest;
  }

  lemma FedIn(p: Policy, w: World, pid: Pid) returns (actions: seq<Action>, v: World)
    requires Inv(p, w) && pid in w.procs && w.procs[pid].pc.Mutate? && w.procs[pid].pc.op.Append? && StatusOf(w, Running)
    ensures Runs(p, w, pid, actions, v) && Inv(p, v) && Appends(w, v, pid, w.procs[pid].pc.op.data)
    ensures v.owner == w.owner && v.procs[pid].pc == Closing({StateLock})
  {
    hide Inv, Step;
    var job, data := w.dir.file.value.job, w.procs[pid].pc.op.data;
    AppendRoom(p, w, pid);
    if Min(job.captured + |data|, job.outputLimit) == job.captured {
      v := NothingFits(p, w, pid);
      RunsNot(p, v, pid);
      RunsThen(p, w, pid, Advance, v, [], v);
      actions := [Advance] + [];
    } else {
      actions, v := SomeFits(p, w, pid);
    }
  }

  lemma SomeFits(p: Policy, w: World, pid: Pid) returns (actions: seq<Action>, v: World)
    requires Inv(p, w) && pid in w.procs && w.procs[pid].pc.Mutate? && w.procs[pid].pc.op.Append? && StatusOf(w, Running)
    requires var job := w.dir.file.value.job; Min(job.captured + |w.procs[pid].pc.op.data|, job.outputLimit) != job.captured
    ensures Runs(p, w, pid, actions, v) && Inv(p, v) && Appends(w, v, pid, w.procs[pid].pc.op.data)
    ensures v.owner == w.owner && v.procs[pid].pc == Closing({StateLock})
  {
    hide Inv, Step, Runs;
    var job, data := w.dir.file.value.job, w.procs[pid].pc.op.data;
    AppendRoom(p, w, pid);
    var accepted := Min(job.captured + |data|, job.outputLimit) - job.captured;
    FitsGoes(p, w, pid, accepted);
    var w1 := Goes(p, w, pid, Advance, Writing(data, accepted, 0));
    var w2 := BytesWritten(p, w1, pid);
    v := Counts(p, w2, pid);
    RunsNot(p, v, pid);
    RunsThen(p, w2, pid, Advance, v, [], v);
    RunsThen(p, w1, pid, WriteSome(accepted), w2, [Advance] + [], v);
    RunsThen(p, w, pid, Advance, w1, [WriteSome(accepted)] + ([Advance] + []), v);
    actions := [Advance] + ([WriteSome(accepted)] + ([Advance] + []));
  }

  lemma AppendRoom(p: Policy, w: World, pid: Pid)
    requires Inv(p, w) && pid in w.procs && StatusOf(w, Running)
    ensures var s := w.dir.file.value;
      && 0 <= s.job.captured <= s.job.outputLimit <= p.captureLimit && 0 < s.job.outputLimit && s.job.captured <= |w.dir.log|
  {
    InvFile(p, w);
  }

  lemma FitsGoes(p: Policy, w: World, pid: Pid, accepted: nat)
    requires Inv(p, w) && pid in w.procs && w.procs[pid].pc.Mutate? && w.procs[pid].pc.op.Append? && StatusOf(w, Running)
    requires var job := w.dir.file.value.job;
      accepted == Min(job.captured + |w.procs[pid].pc.op.data|, job.outputLimit) - job.captured && accepted > 0
    ensures Step(p, w, pid, Advance) == Some(Goto(w, pid, Writing(w.procs[pid].pc.op.data, accepted, 0)))
  {
    AppendRoom(p, w, pid);
    AdvanceMutates(p, w, pid);
    hide Inv, WriteThen, AdvanceStep;
  }

  lemma NothingFits(p: Policy, w: World, pid: Pid) returns (v: World)
    requires Inv(p, w) && pid in w.procs && w.procs[pid].pc.Mutate? && w.procs[pid].pc.op.Append? && StatusOf(w, Running)
    requires var job := w.dir.file.value.job; Min(job.captured + |w.procs[pid].pc.op.data|, job.outputLimit) == job.captured
    ensures Step(p, w, pid, Advance) == Some(v) && Inv(p, v) && v.owner == w.owner && pid in v.procs
    ensures v.dir == w.dir.(fed := w.dir.fed + w.procs[pid].pc.op.data)
    ensures var job := w.dir.file.value.job;
      v.procs[pid] == w.procs[pid].(pc := Closing({StateLock}), sawLimit := w.procs[pid].sawLimit || job.captured == job.outputLimit)
  {
    AppendRoom(p, w, pid);
    AdvanceMutates(p, w, pid);
    hide Inv, WriteThen, AdvanceStep;
    v := MutateStep(p, w, pid);
    StepInv(p, w, pid, Advance);
  }

  lemma BytesWritten(p: Policy, w: World, pid: Pid) returns (v: World)
    requires Inv(p, w) && pid in w.procs && w.procs[pid].pc.Writing? && w.procs[pid].pc.written == 0
    ensures var pc := w.procs[pid].pc;
      && Step(p, w, pid, WriteSome(pc.accepted)) == Some(v) && Inv(p, v) && v.owner == w.owner
      && Stands(w, v, pid, pc.(written := pc.accepted)) && v.dir.(log := w.dir.log) == w.dir
  {
    OneProc(p, w, pid);
    hide Inv, Overwrite;
    var pc := w.procs[pid].pc;
    v := WriteSomeStep(w, pid, pc.accepted).value;
    StepInv(p, w, pid, WriteSome(pc.accepted));
  }

  lemma Counts(p: Policy, w: World, pid: Pid) returns (v: World)
    requires Inv(p, w) && pid in w.procs && w.procs[pid].pc.Writing? && w.procs[pid].pc.written == w.procs[pid].pc.accepted
    ensures Step(p, w, pid, Advance) == Some(v) && Inv(p, v) && v.owner == w.owner && pid in v.procs && w.dir.file.Some?
    ensures var s, pc := w.dir.file.value, w.procs[pid].pc;
      var captured := s.job.captured + pc.accepted;
      && v.dir == w.dir.(file := Some(s.(job := s.job.(captured := captured))), fed := w.dir.fed + pc.data)
      && v.procs[pid] == w.procs[pid].(pc := Closing({StateLock}), sawLimit := w.procs[pid].sawLimit || captured == s.job.outputLimit)
  {
    AppendAccepted(p, w, pid);
    hide Inv, Valid, Extends, WriteThen, MutateStep, EraseStep, ObserveStep, TryRunnerStep, TookStep;
    v := CommitAppend(p, w, pid).value;
    StepInv(p, w, pid, Advance);
  }

  /** The runner's append, from the chunk to the released lock. */
  lemma AppendRuns(p: Policy, w: World, data: seq<Byte>) returns (actions: seq<Action>, v: World)
    requires Inv(p, w) && RUNNER in w.procs && w.procs[RUNNER].pc.Idle? && w.procs[RUNNER].lease
    requires StatusOf(w, Running) && !w.dir.intent && StateLock !in w.owner
    ensures Runs(p, w, RUNNER, actions, v) && Inv(p, v) && RUNNER in v.procs && v.procs[RUNNER].pc.Idle? && StateLock !in v.owner
    ensures Appends(w, v, RUNNER, data)
  {
    hide Inv, Step;
    AppendStarts(p, w, data);
    var w1 := Goes(p, w, RUNNER, StartAppend(data), AwaitNoIntent(Append(data)));
    StandsAt(w, w1, RUNNER, AwaitNoIntent(Append(data)));
    var enter, w2 := Enters(p, w1, RUNNER);
    StandsAt(w1, w2, RUNNER, Mutate(Append(data)));
    var rest;
    rest, v := AppendGetsThrough(p, w2, RUNNER);
    RunsOn(p, w1, RUNNER, enter, w2, rest, v);
    RunsThen(p, w, RUNNER, StartAppend(data), w1, enter + rest, v);
    actions := [StartAppend(data)] + (enter + rest);
  }

  lemma StandsAt(w: World, v: World, pid: Pid, pc: PC)
    requires Stands(w, v, pid, pc)
    ensures pid in v.procs && v.procs[pid].pc == pc && v.procs[pid].lease == w.procs[pid].lease
  {}

  lemma AppendStarts(p: Policy, w: World, data: seq<Byte>)
    requires RUNNER in w.procs && w.procs[RUNNER].pc.Idle? && w.procs[RUNNER].lease
    ensures Step(p, w, RUNNER, StartAppend(data)) == Some(Goto(w, RUNNER, AwaitNoIntent(Append(data))))
  {}

  /** A mutation that writes: from the wait for the marker to the released lock. */
  lemma MutationRuns(p: Policy, w: World, pid: Pid) returns (actions: seq<Action>, v: World)
    requires Inv(p, w) && pid in w.procs && w.procs[pid].pc.AwaitNoIntent? && !w.procs[pid].pc.op.Append?
    requires w.dir.file.Some? && !w.dir.intent && StateLock !in w.owner
    ensures Runs(p, w, pid, actions, v) && Inv(p, v) && pid in v.procs && v.procs[pid].pc.Idle? && StateLock !in v.owner
    ensures var s := w.dir.file.value;
      v.dir == w.dir.(file := Some(match w.procs[pid].pc.op
        case Cancel(actor) =>
          if s.job.owner == actor && s.cancellation.None? && s.job.status == Running then CancelRequested(s, w.dir.clock, actor) else s
        case CommitWait(session, chunk, updatedAt) =>
          var outcome := WaitCommitted(p, s, session, chunk, updatedAt);
          if outcome.Replaced? then outcome.next else s
        case _ => s))
  {
    hide Inv, Step, Stands, WaitCommitted;
    var op := w.procs[pid].pc.op;
    var enter, w1 := Enters(p, w, pid);
    StandsAt(w, w1, pid, Mutate(op));
    var w2 := Writes(p, w1, pid);
    StandsAt(w1, w2, pid, Closing({StateLock}));
    var rest;
    rest, v := Closes(p, w2, pid);
    RunsThen(p, w1, pid, Advance, w2, rest, v);
    RunsOn(p, w, pid, enter, w1, [Advance] + rest, v);
    actions := enter + ([Advance] + rest);
  }

  lemma CancelRuns(p: Policy, w: World, pid: Pid, actor: SessionId) returns (actions: seq<Action>, v: World)
    requires Inv(p, w) && pid in w.procs && w.procs[pid].pc.Idle? && !w.procs[pid].lease
    requires w.dir.file.Some? && !w.dir.intent && StateLock !in w.owner
    ensures Runs(p, w, pid, actions, v) && Inv(p, v) && pid in v.procs && v.procs[pid].pc.Idle? && StateLock !in v.owner
    ensures var s := w.dir.file.value;
      v.dir == w.dir.(file := Some(
        if s.job.owner == actor && s.cancellation.None? && s.job.status == Running then CancelRequested(s, w.dir.clock, actor) else s))
  {
    hide Inv, Step, Stands;
    CancelStarts(p, w, pid, actor);
    var w1 := Goes(p, w, pid, StartCancel(actor), AwaitNoIntent(Cancel(actor)));
    StandsAt(w, w1, pid, AwaitNoIntent(Cancel(actor)));
    var rest;
    rest, v := MutationRuns(p, w1, pid);
    RunsThen(p, w, pid, StartCancel(actor), w1, rest, v);
    actions := [StartCancel(actor)] + rest;
  }

  lemma CancelStarts(p: Policy, w: World, pid: Pid, actor: SessionId)
    requires pid in w.procs && w.procs[pid].pc.Idle? && !w.procs[pid].lease
    ensures Step(p, w, pid, StartCancel(actor)) == Some(Goto(w, pid, AwaitNoIntent(Cancel(actor))))
  {}
  /** The session's cursor is at `next` or was further already; no other cursor moved. */
  ghost predicate MovesOn(before: seq<Observer>, after: seq<Observer>, session: SessionId, next: int) {
    && CursorOf(after, session) == Max(CursorOf(before, session), next)
    && forall other :: other != session ==> CursorOf(after, other) == CursorOf(before, other)
  }

  /** A wait of a session: the response has the captured bytes from its start on, and is then committed. */
  lemma WaitRuns(p: Policy, w: World, pid: Pid, session: SessionId, explicit: Option<int>)
    returns (observe: seq<Action>, u: World, commit: seq<Action>, v: World)
    requires Inv(p, w) && pid in w.procs && w.procs[pid].pc.Idle? && !w.procs[pid].lease
    requires w.dir.file.Some? && !w.dir.intent && StateLock !in w.owner
    requires 0 <= ResolveStart(w.dir.file.value, session, explicit) <= w.dir.file.value.job.captured
    ensures Runs(p, w, pid, observe, u) && Inv(p, u) && u.dir == w.dir
    ensures var s := w.dir.file.value;
      var start := ResolveStart(s, session, explicit);
      && s.job.captured <= |w.dir.log|
      && Stands(w, u, pid, Respond(session, start, s, w.dir.log[start..s.job.captured]))
    ensures Runs(p, u, pid, commit, v) && Inv(p, v) && pid in v.procs && v.procs[pid].pc.Idle? && StateLock !in v.owner
    ensures v.dir.(file := w.dir.file) == w.dir && v.dir.file.Some?
    ensures MovesOn(w.dir.file.value.observers, v.dir.file.value.observers, session, w.dir.file.value.job.captured)
  {
    hide Inv, Step, Stands, WaitCommitted, ResolveStart, Valid, CursorOf;
    var s := w.dir.file.value;
    var start := ResolveStart(s, session, explicit);
    InvFile(p, w);
    AppendRoomOf(p, w);
    WaitStarts(p, w, pid, session, explicit);
    var w1 := Goes(p, w, pid, StartWait(session, explicit), ReadLog(session, start, s));
    StandsAt(w, w1, pid, ReadLog(session, start, s));
    ReadsLog(p, w1, pid);
    u := Goes(p, w1, pid, Advance, Respond(session, start, s, w.dir.log[start..s.job.captured]));
    StandsTwice(w, w1, u, pid);
    StandsAt(w1, u, pid, Respond(session, start, s, w.dir.log[start..s.job.captured]));
    RunsNot(p, u, pid);
    RunsThen(p, w1, pid, Advance, u, [], u);
    RunsThen(p, w, pid, StartWait(session, explicit), w1, [Advance] + [], u);
    observe := [StartWait(session, explicit)] + ([Advance] + []);
    var op := CommitWait(session, Chunk(start, s.job.captured, s.job.captured, s.job.status != Running), WaitStamp(s, w.dir.clock));
    Responds(p, u, pid);
    var w3 := Goes(p, u, pid, Advance, AwaitNoIntent(op));
    StandsAt(u, w3, pid, AwaitNoIntent(op));
    var rest;
    rest, v := MutationRuns(p, w3, pid);
    RunsThen(p, u, pid, Advance, w3, rest, v);
    commit := [Advance] + rest;
    OpFits(p, w3, pid);
    CommitMoves(p, s, session, op.chunk, op.updatedAt, w.dir.clock, |w.dir.log|);
  }

  lemma AppendRoomOf(p: Policy, w: World)
    requires Inv(p, w) && w.dir.file.Some?
    ensures Committed(p, w.dir.file.value, w.dir.clock) && 0 <= w.dir.file.value.job.captured <= |w.dir.log|
  {
    InvFile(p, w);
  }

  lemma OpFits(p: Policy, w: World, pid: Pid)
    requires Inv(p, w) && pid in w.procs && w.procs[pid].pc.AwaitNoIntent? && w.procs[pid].pc.op.CommitWait? && w.dir.file.Some?
    ensures var op := w.procs[pid].pc.op; ChunkFits(w.dir.file.value, op.chunk, op.updatedAt, w.dir.clock)
  {
    OneProc(p, w, pid);
  }

  lemma CommitMoves(p: Policy, s: PersistedState, session: SessionId, chunk: Chunk, updatedAt: int, now: int, logSize: nat)
    requires Committed(p, s, now) && ChunkFits(s, chunk, updatedAt, now) && s.job.captured <= logSize
    ensures var r := WaitCommitted(p, s, session, chunk, updatedAt);
      MovesOn(s.observers, if r.Replaced? then r.next.observers else s.observers, session, chunk.next)
  {
    hide Committed, ChunkFits, CursorOf;
    WaitCommitCommitted(p, s, session, chunk, updatedAt, now, logSize);
    forall other {
      CursorAfterUpdate(s.observers, session, Observer(session, chunk.next, FinishBound(s, updatedAt)), other);
    }
    EarlierCursor(p, s, session, chunk, updatedAt);
  }

  lemma EarlierCursor(p: Policy, s: PersistedState, session: SessionId, chunk: Chunk, updatedAt: int)
    ensures WaitCommitted(p, s, session, chunk, updatedAt).Replaced? ==>
      CursorOf(s.observers, session) < chunk.next || (CursorOf(s.observers, session) == -1 && 0 <= chunk.next)
  {}

  lemma StandsTwice(w: World, u: World, v: World, pid: Pid)
    requires pid in u.procs && Stands(w, u, pid, u.procs[pid].pc) && pid in v.procs && Stands(u, v, pid, v.procs[pid].pc)
    ensures Stands(w, v, pid, v.procs[pid].pc)
  {}

  lemma WaitStarts(p: Policy, w: World, pid: Pid, session: SessionId, explicit: Option<int>)
    requires pid in w.procs && w.procs[pid].pc.Idle? && !w.procs[pid].lease && w.dir.file.Some?
    requires 0 <= ResolveStart(w.dir.file.value, session, explicit) <= w.dir.file.value.job.captured
    ensures Step(p, w, pid, StartWait(session, explicit))
      == Some(Goto(w, pid, ReadLog(session, ResolveStart(w.dir.file.value, session, explicit), w.dir.file.value)))
  {
    hide ResolveStart;
  }

  lemma ReadsLog(p: Policy, w: World, pid: Pid)
    requires pid in w.procs && w.procs[pid].pc.ReadLog? && w.dir.file.Some?
    requires w.procs[pid].pc.start <= w.procs[pid].pc.snap.job.captured <= |w.dir.log|
    ensures var pc := w.procs[pid].pc;
      Step(p, w, pid, Advance) == Some(Goto(w, pid, Respond(pc.session, pc.start, pc.snap, w.dir.log[pc.start..pc.snap.job.captured])))
  {
    hide WriteThen, MutateStep, CommitAppend, EraseStep, TryRunnerStep, TookStep;
  }

  lemma Responds(p: Policy, w: World, pid: Pid)
    requires pid in w.procs && w.procs[pid].pc.Respond?
    ensures var pc := w.procs[pid].pc;
      var captured := pc.snap.job.captured;
      Step(p, w, pid, Advance) == Some(Goto(w, pid, AwaitNoIntent(CommitWait(pc.session,
        Chunk(pc.start, captured, captured, pc.snap.job.status != Running), WaitStamp(pc.snap, w.dir.clock)))))
  {
    hide WriteThen, MutateStep, CommitAppend, EraseStep, TryRunnerStep, TookStep, WaitStamp;
  }

  /** The runner's publication: the state of the outcome, no marker, and the lease given up. */
  lemma PublicationRuns(p: Policy, w: World, outcome: Outcome) returns (actions: seq<Action>, v: World)
    requires Inv(p, w) && RUNNER in w.procs && w.procs[RUNNER].pc.Idle? && w.procs[RUNNER].lease
    requires StatusOf(w, Running) && !w.dir.intent && OutcomeBacked(w.procs[RUNNER], outcome)
    requires StateLock !in w.owner && RecoveryLock !in w.owner
    ensures Runs(p, w, RUNNER, actions, v) && Inv(p, v) && RUNNER in v.procs && v.procs[RUNNER].pc.Idle? && !v.procs[RUNNER].lease
    ensures v.dir == w.dir.(file := TerminalState(w.dir.file.value, outcome, w.dir.clock)) && v.dir.file.Some?
    ensures StateLock !in v.owner && RecoveryLock !in v.owner && RunnerLock !in v.owner
  {
    hide Inv, Step, Stands, TerminalState;
    PublicationStarts(p, w, outcome);
    var w1 := Goes(p, w, RUNNER, StartPublish(outcome), AwaitRecoveryPublish(outcome));
    StandsAt(w, w1, RUNNER, AwaitRecoveryPublish(outcome));
    var w2 := Locks(p, w1, RUNNER, RecoveryLock);
    StandsAt(w1, w2, RUNNER, CreateIntent(outcome));
    var w3 := Marks(p, w2);
    var w4 := Locks(p, w3, RUNNER, StateLock);
    StandsAt(w3, w4, RUNNER, WriteTerminal(outcome));
    PublicationCandidate(p, w4, RUNNER);
    var w5 := Writes(p, w4, RUNNER);
    StandsAt(w4, w5, RUNNER, ClearIntent);
    var w6 := Unmarks(p, w5);
    var rest;
    rest, v := Closes(p, w6, RUNNER);
    RunsThen(p, w5, RUNNER, Advance, w6, rest, v);
    RunsThen(p, w4, RUNNER, Advance, w5, [Advance] + rest, v);
    RunsThen(p, w3, RUNNER, Advance, w4, [Advance] + ([Advance] + rest), v);
    RunsThen(p, w2, RUNNER, Advance, w3, [Advance] + ([Advance] + ([Advance] + rest)), v);
    RunsThen(p, w1, RUNNER, Advance, w2, [Advance] + ([Advance] + ([Advance] + ([Advance] + rest))), v);
    actions := [Advance] + ([Advance] + ([Advance] + ([Advance] + ([Advance] + rest))));
    RunsThen(p, w, RUNNER, StartPublish(outcome), w1, actions, v);
    actions := [StartPublish(outcome)] + actions;
  }

  lemma PublicationStarts(p: Policy, w: World, outcome: Outcome)
    requires RUNNER in w.procs && w.procs[RUNNER].pc.Idle? && w.procs[RUNNER].lease && OutcomeBacked(w.procs[RUNNER], outcome)
    ensures Step(p, w, RUNNER, StartPublish(outcome)) == Some(Goto(w, RUNNER, AwaitRecoveryPublish(outcome)))
  {}

  lemma Marks(p: Policy, w: World) returns (v: World)
    requires Inv(p, w) && RUNNER in w.procs && w.procs[RUNNER].pc.CreateIntent? && !w.dir.intent
    ensures Step(p, w, RUNNER, Advance) == Some(v) && Inv(p, v) && v.dir == w.dir.(intent := true) && v.owner == w.owner
    ensures RUNNER in v.procs && v.procs[RUNNER].pc == AwaitStatePublish(w.procs[RUNNER].pc.outcome)
    ensures v.procs[RUNNER].lease == w.procs[RUNNER].lease
  {
    hide Inv, WriteThen, MutateStep, CommitAppend, EraseStep, ObserveStep, TryRunnerStep, TookStep;
    v := AdvanceStep(p, w, RUNNER).value;
    StepInv(p, w, RUNNER, Advance);
  }

  lemma Unmarks(p: Policy, w: World) returns (v: World)
    requires Inv(p, w) && RUNNER in w.procs && w.procs[RUNNER].pc.ClearIntent?
    ensures Step(p, w, RUNNER, Advance) == Some(v) && Inv(p, v) && v.dir == w.dir.(intent := false) && v.owner == w.owner
    ensures RUNNER in v.procs && v.procs[RUNNER].pc == Closing({StateLock, RecoveryLock, RunnerLock})
    ensures v.procs[RUNNER].lease == w.procs[RUNNER].lease
  {
    hide Inv, WriteThen, MutateStep, CommitAppend, EraseStep, ObserveStep, TryRunnerStep, TookStep;
    v := AdvanceStep(p, w, RUNNER).value;
    StepInv(p, w, RUNNER, Advance);
  }

  /** The removal of a terminal job by its owner. */
  lemma RemovalRuns(p: Policy, w: World, pid: Pid, actor: SessionId) returns (actions: seq<Action>, v: World)
    requires Inv(p, w) && pid in w.procs && w.procs[pid].pc.Idle? && !w.procs[pid].lease
    requires w.dir.file.Some? && w.dir.file.value.job.owner == actor && w.dir.file.value.job.status != Running
    requires StateLock !in w.owner && RunnerLock !in w.owner
    ensures Runs(p, w, pid, actions, v) && Inv(p, v) && pid in v.procs && v.procs[pid].pc.Idle?
    ensures v.dir.file.None? && v.dir.log == [] && !v.dir.intent
    ensures StateLock !in v.owner && RunnerLock !in v.owner
  {
    hide Inv, Step, Stands;
    RemovalStarts(p, w, pid, actor);
    var w1 := Goes(p, w, pid, StartErase(actor), TryErase(actor));
    StandsAt(w, w1, pid, TryErase(actor));
    var w2 := TakesRunnerLock(p, w1, pid);
    var w3 := Locks(p, w2, pid, StateLock);
    StandsAt(w2, w3, pid, Erase(actor));
    var w4 := Erases(p, w3, pid);
    var rest;
    rest, v := Closes(p, w4, pid);
    RunsThen(p, w3, pid, Advance, w4, rest, v);
    RunsThen(p, w2, pid, Advance, w3, [Advance] + rest, v);
    RunsThen(p, w1, pid, Advance, w2, [Advance] + ([Advance] + rest), v);
    RunsThen(p, w, pid, StartErase(actor), w1, [Advance] + ([Advance] + ([Advance] + rest)), v);
    actions := [StartErase(actor)] + ([Advance] + ([Advance] + ([Advance] + rest)));
  }

  lemma RemovalStarts(p: Policy, w: World, pid: Pid, actor: SessionId)
    requires pid in w.procs && w.procs[pid].pc.Idle? && !w.procs[pid].lease
    ensures Step(p, w, pid, StartErase(actor)) == Some(Goto(w, pid, TryErase(actor)))
  {}

  lemma TakesRunnerLock(p: Policy, w: World, pid: Pid) returns (v: World)
    requires Inv(p, w) && pid in w.procs && w.procs[pid].pc.TryErase? && RunnerLock !in w.owner
    ensures Step(p, w, pid, Advance) == Some(v) && Inv(p, v) && v.dir == w.dir && pid in v.procs
    ensures v.procs[pid].pc == AwaitStateErase(w.procs[pid].pc.actor) && SameBut(w, v, {RunnerLock})
  {
    hide Inv, WriteThen, MutateStep, CommitAppend, EraseStep, ObserveStep, TryRunnerStep, TookStep;
    v := AdvanceStep(p, w, pid).value;
    StepInv(p, w, pid, Advance);
  }

  lemma Erases(p: Policy, w: World, pid: Pid) returns (v: World)
    requires Inv(p, w) && pid in w.procs && w.procs[pid].pc.Erase? && w.dir.file.Some?
    requires w.dir.file.value.job.owner == w.procs[pid].pc.actor && w.dir.file.value.job.status != Running
    ensures Step(p, w, pid, Advance) == Some(v) && Inv(p, v) && v.owner == w.owner && pid in v.procs
    ensures v.procs[pid].pc == Closing({RunnerLock, StateLock})
    ensures v.dir.file.None? && v.dir.log == [] && !v.dir.intent
  {
    hide Inv, WriteThen, MutateStep, CommitAppend, ObserveStep, TryRunnerStep, TookStep;
    v := AdvanceStep(p, w, pid).value;
    StepInv(p, w, pid, Advance);
  }

  /** A cancellation of a job whose runner holds its lock, through reconciliation. */
  lemma CancelWhileActiveRuns(p: Policy, w: World, pid: Pid, actor: SessionId) returns (actions: seq<Action>, v: World)
    requires Inv(p, w) && pid in w.procs && w.procs[pid].pc.Idle? && !w.procs[pid].lease
    requires StatusOf(w, Running) && !w.dir.intent && RunnerLock in w.owner
    requires StateLock !in w.owner && RecoveryLock !in w.owner
    ensures Runs(p, w, pid, actions, v) && Inv(p, v) && pid in v.procs && v.procs[pid].pc.Idle?
    ensures var s := w.dir.file.value;
      v.dir == w.dir.(file := Some(
        if s.job.owner == actor && s.cancellation.None? then CancelRequested(s, w.dir.clock, actor) else s))
    ensures StateLock !in v.owner && RecoveryLock !in v.owner
  {
    hide Inv, Step, Stands;
    ReconcileStarts(p, w, pid, actor);
    var w1 := Goes(p, w, pid, StartReconcile(Some(actor)), AwaitRecovery(Some(actor)));
    StandsAt(w, w1, pid, AwaitRecovery(Some(actor)));
    var w2 := TakesRecovery(p, w1, pid);
    Looks(p, w2, pid);
    var w3 := Goes(p, w2, pid, Advance, TryRunner(Some(actor), true, false));
    StandsAt(w2, w3, pid, TryRunner(Some(actor), true, false));
    FindsActive(p, w3, pid);
    var w4 := Goes(p, w3, pid, Advance, AwaitStateActive(actor));
    StandsAt(w3, w4, pid, AwaitStateActive(actor));
    var w5 := Locks(p, w4, pid, StateLock);
    StandsAt(w4, w5, pid, CancelActive(actor));
    var w6 := Writes(p, w5, pid);
    StandsAt(w5, w6, pid, Closing({StateLock, RecoveryLock}));
    var rest;
    rest, v := Closes(p, w6, pid);
    RunsThen(p, w5, pid, Advance, w6, rest, v);
    RunsThen(p, w4, pid, Advance, w5, [Advance] + rest, v);
    RunsThen(p, w3, pid, Advance, w4, [Advance] + ([Advance] + rest), v);
    RunsThen(p, w2, pid, Advance, w3, [Advance] + ([Advance] + ([Advance] + rest)), v);
    RunsThen(p, w1, pid, Advance, w2, [Advance] + ([Advance] + ([Advance] + ([Advance] + rest))), v);
    actions := [Advance] + ([Advance] + ([Advance] + ([Advance] + ([Advance] + rest))));
    RunsThen(p, w, pid, StartReconcile(Some(actor)), w1, actions, v);
    actions := [StartReconcile(Some(actor))] + actions;
  }

  lemma ReconcileStarts(p: Policy, w: World, pid: Pid, actor: SessionId)
    requires pid in w.procs && w.procs[pid].pc.Idle? && !w.procs[pid].lease
    ensures Step(p, w, pid, StartReconcile(Some(actor))) == Some(Goto(w, pid, AwaitRecovery(Some(actor))))
  {}

  lemma TakesRecovery(p: Policy, w: World, pid: Pid) returns (v: World)
    requires Inv(p, w) && pid in w.procs && w.procs[pid].pc.AwaitRecovery? && RecoveryLock !in w.owner && w.dir.file.Some?
    ensures Step(p, w, pid, Advance) == Some(v) && Inv(p, v) && v.dir == w.dir && pid in v.procs
    ensures v.procs[pid].pc == ReadState(w.procs[pid].pc.cancel) && SameBut(w, v, {RecoveryLock})
  {
    hide Inv, WriteThen, MutateStep, CommitAppend, EraseStep, ObserveStep, TryRunnerStep, TookStep;
    v := AdvanceStep(p, w, pid).value;
    StepInv(p, w, pid, Advance);
  }

  lemma Looks(p: Policy, w: World, pid: Pid)
    requires pid in w.procs && w.procs[pid].pc.ReadState? && StatusOf(w, Running)
    ensures Step(p, w, pid, Advance) == Some(Goto(w, pid, TryRunner(w.procs[pid].pc.cancel, true, w.dir.intent)))
  {
    hide WriteThen, MutateStep, CommitAppend, EraseStep, ObserveStep, TryRunnerStep, TookStep;
  }

  lemma FindsActive(p: Policy, w: World, pid: Pid)
    requires pid in w.procs && w.procs[pid].pc.TryRunner? && RunnerLock in w.owner
    requires w.procs[pid].pc.cancel.Some? && !w.procs[pid].pc.seen
    ensures Step(p, w, pid, Advance) == Some(Goto(w, pid, AwaitStateActive(w.procs[pid].pc.cancel.value)))
  {
    hide WriteThen, MutateStep, CommitAppend, EraseStep, ObserveStep, TookStep;
  }

  /** The runner's poll notices a cancellation exactly when one is persisted; with it, a cancelled outcome can be
      published. Time passes for everybody. */
  lemma PollsAndTicks(p: Policy, w: World, elapsed: nat, pid: Pid)
    requires RUNNER in w.procs && w.procs[RUNNER].pc.Idle? && w.procs[RUNNER].lease
    ensures var v := Step(p, w, RUNNER, Poll);
      && v.Some? && v.value.dir == w.dir && v.value.owner == w.owner && RUNNER in v.value.procs
      && v.value.procs[RUNNER] == w.procs[RUNNER].(
           sawCancel := w.procs[RUNNER].sawCancel || (w.dir.file.Some? && w.dir.file.value.cancellation.Some?))
    ensures var v := Step(p, w, pid, Tick(elapsed));
      v.Some? && v.value.dir.clock == w.dir.clock + elapsed && v.value.(dir := w.dir) == w
  {}
}
