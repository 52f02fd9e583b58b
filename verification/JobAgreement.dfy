/** The directory object and the step relation write the same states: what a method does uninterrupted is what
    the protocol's step does under the same locks. */
module JobAgreement {
  import opened JobState
  import opened JobProtocol
  import opened JobInvariant
  import opened JobTheorems
  import opened JobDirectory

  /** The step that completes a cancellation, a wait commit, a loss, a publication or an append leaves exactly
      the file that the method of the same name promises. */
  lemma StepsWriteAsMethods(p: Policy, w: World, pid: Pid)
    requires Inv(p, w) && pid in w.procs && w.dir.file.Some? && AdvanceStep(p, w, pid).Some?
    ensures var pc, s, file := w.procs[pid].pc, w.dir.file.value, AdvanceStep(p, w, pid).value.dir.file;
      // CancelLocked
      && (pc.CancelActive? ==> file == Some(CancelEffect(s, w.dir.clock, pc.actor)))
      && (pc.Mutate? && pc.op.Cancel? ==> file == Some(CancelEffect(s, w.dir.clock, pc.op.actor)))
      // CommitWaitLocked
      && (pc.Mutate? && pc.op.CommitWait? ==>
            var outcome := WaitCommitted(p, s, pc.op.session, pc.op.chunk, pc.op.updatedAt);
            file == if outcome.Replaced? then Some(outcome.next) else Some(s))
      // Reconcile, after its marker
      && (pc.WriteLost? ==> file == Some(Reconciled(s, w.dir.clock)))
      // PublishTerminal, after its marker
      && (pc.WriteTerminal? ==> file == TerminalState(s, pc.outcome, w.dir.clock))
      // AppendOutput, after its bytes
      && (pc.Writing? ==> file == Some(Appended(s, pc.accepted)))
      // EraseLocked
      && (pc.Erase? ==>
            var dir := AdvanceStep(p, w, pid).value.dir;
            (file, dir.log, dir.intent) == EraseEffect(s, w.dir.log, w.dir.intent, pc.actor))
  {
    hide Inv, Valid, Extends, TerminalState, WaitCommitted, RunnerLostState, WriteThen, AdvanceStep, FileStep;
    var pc := w.procs[pid].pc;
    if pc.Writing? {
      AppendAccepted(p, w, pid);
      CommittedAppend(p, w, pid);
    } else if pc.Erase? {
      EraseWrites(p, w, pid);
    } else if WritePc(pc) {
      SomeCandidate(p, w, pid, AfterWrite(pc));
      WriteAdvances(p, w, pid);
      if pc.WriteTerminal? { PublicationCandidate(p, w, pid); }
    }
  }

  lemma EraseWrites(p: Policy, w: World, pid: Pid)
    requires pid in w.procs && w.procs[pid].pc.Erase? && w.dir.file.Some?
    ensures AdvanceStep(p, w, pid).Some?
    ensures var dir := AdvanceStep(p, w, pid).value.dir;
      (dir.file, dir.log, dir.intent) == EraseEffect(w.dir.file.value, w.dir.log, w.dir.intent, w.procs[pid].pc.actor)
  {
    hide WriteThen, CommitAppend, ObserveStep, TookStep, TryRunnerStep, MutateStep, Valid;
  }

  lemma CommittedAppend(p: Policy, w: World, pid: Pid)
    requires pid in w.procs && w.procs[pid].pc.Writing? && w.dir.file.Some? && AdvanceStep(p, w, pid).Some?
    requires Valid(p, Appended(w.dir.file.value, w.procs[pid].pc.accepted))
    ensures AdvanceStep(p, w, pid).value.dir.file == Some(Appended(w.dir.file.value, w.procs[pid].pc.accepted))
  {
    hide WriteThen, EraseStep, ObserveStep, TookStep, TryRunnerStep, MutateStep, Valid;
  }
}
