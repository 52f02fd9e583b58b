/** What the registry's closes do to its launches, and that a dispose comes to its end. */
module SessionRegistryProgress {
  import opened JobState
  import opened SessionRegistry

  // ---------------------------------------------------------------- which launches are aborted

  predicate Aborted(w: World, l: LaunchId) { l < |w.launches| && w.launches[l].aborted }

  /** The launch has not finished and can be aborted. */
  predicate AbortDue(w: World, l: LaunchId, s: SessionId) { Waiting(w, l, s) && w.launches[l].abortable }

  lemma {:induction false} ScanAborts(w: World, session: SessionId, pending: seq<LaunchId>)
    requires AreLaunches(w, pending)
    ensures forall l: LaunchId :: Aborted(Scan(w, session, pending), l) <==>
      Aborted(w, l) || (l in pending && l < |w.launches| && w.launches[l].abortable)
    decreases |pending|
  {
    if pending != [] {
      var last, init := pending[|pending| - 1], pending[..|pending| - 1];
      assert pending == init + [last];
      ScanAborts(w, session, init);
      ScanIsScanned(w, session, init);
      ScannedLaunch(w, Scan(w, session, init), session, init, last);
    }
  }

  /** A close aborts exactly the pending launches of its session that can be aborted, if the session is listed. */
  lemma CloseAborts(w: World, session: SessionId)
    requires Inv(w)
    ensures forall l: LaunchId :: Aborted(CloseStep(w, session), l) <==>
      Aborted(w, l) || (session in w.sessions && AbortDue(w, l, session))
  {
    if Known(w, session) {
      var state := w.states[session];
      var marked := w.(closed := w.closed + {session}, states := w.states[session := state.(closing := true)]);
      ScanAborts(marked, session, state.pending);
    } else {
      KnownIfListed(w, session);
    }
  }

  /** Dispose does so for every session it lists; every other call and every resumption leaves the launches' flags alone. */
  lemma {:induction false} CloseAllAborts(w: World, sessions: seq<SessionId>)
    requires Inv(w) && forall s :: s in sessions ==> s in w.sessions
    ensures var (v, _) := CloseAll(w, sessions);
      && |v.launches| == |w.launches|
      && (forall l: LaunchId, s :: AbortDue(v, l, s) <==> AbortDue(w, l, s))
      && forall l: LaunchId :: Aborted(v, l) <==> Aborted(w, l) || (l < |w.launches| && w.launches[l].session in sessions && AbortDue(w, l, w.launches[l].session))
    decreases |sessions|
  {
    hide Inv, CloseStep;
    if sessions != [] {
      var init, last := sessions[..|sessions| - 1], sessions[|sessions| - 1];
      assert sessions == init + [last];
      CloseAllAborts(w, init);
      CloseAllInv(w, init);
      var before := CloseAll(w, init).0;
      CloseAborts(before, last);
      CloseKeepsDue(before, last);
    }
  }

  lemma CloseKeepsDue(w: World, session: SessionId)
    requires Inv(w)
    ensures var v := CloseStep(w, session);
      && |v.launches| == |w.launches|
      && (forall l: LaunchId, s :: AbortDue(v, l, s) <==> AbortDue(w, l, s))
      && (forall l :: 0 <= l < |w.launches| ==> v.launches[l].session == w.launches[l].session)
  {
    hide Inv;
    if Known(w, session) { CloseKnown(w, session); }
  }

  /** Which launches a step aborts: those of a closed session, or of every listed one, that are pending and can be. */
  lemma AbortsExactly(w: World, a: Action, l: LaunchId)
    requires Inv(w) && Step(w, a).Some?
    ensures Aborted(Step(w, a).value, l) <==>
      || Aborted(w, l)
      || (a.Close? && a.session in w.sessions && AbortDue(w, l, a.session))
      || (a.Dispose? && l < |w.launches| && w.launches[l].session in w.sessions && AbortDue(w, l, w.launches[l].session))
  {
    if a.Close? {
      hide Inv, CloseStep;
      CloseAborts(w, a.session);
    } else if a.Dispose? {
      hide Inv, CloseAll;
      var flagged := w.(disposed := true);
      AppendedInv(w, flagged);
      CloseAllAborts(flagged, w.sessions);
    } else if a.Resume? {
      hide Inv, ResumeStep;
      ResumeKeeps(w, a.task);
    }
  }

  // ---------------------------------------------------------------- a dispose comes to its end

  predicate CloseLike(tasks: seq<Task>, c: TaskId) { c < |tasks| && (tasks[c].Closing? || tasks[c].Sweeping? || tasks[c].Done?) }

  predicate CleanupLike(tasks: seq<Task>, c: TaskId) { c < |tasks| && (tasks[c].Deferred? || tasks[c].DeferredSweep? || tasks[c].Done?) }

  /** A dispose awaits closes and then cleanups, and nothing else. */
  ghost predicate Awaits(tasks: seq<Task>) {
    && (forall t, c: TaskId :: 0 <= t < |tasks| && tasks[t].DisposeClosing? && c in tasks[t].closes ==> CloseLike(tasks, c))
    && (forall t, c: TaskId :: 0 <= t < |tasks| && tasks[t].DisposeDeferred? && c in tasks[t].cleanups ==> CleanupLike(tasks, c))
  }

  lemma AwaitsMore(tasks: seq<Task>, more: seq<Task>)
    requires Awaits(tasks) && tasks <= more
    requires forall t :: |tasks| <= t < |more| ==> more[t].Deferred? || more[t].Closing?
    ensures Awaits(more)
  {
    assert forall c: TaskId :: CloseLike(tasks, c) ==> CloseLike(more, c);
    assert forall c: TaskId :: CleanupLike(tasks, c) ==> CleanupLike(more, c);
    assert forall t :: 0 <= t < |tasks| ==> more[t] == tasks[t];
  }

  lemma CloseAwaits(w: World, session: SessionId)
    requires Inv(w) && Awaits(w.tasks)
    ensures var v := CloseStep(w, session);
      && w.tasks <= v.tasks && Awaits(v.tasks)
      && (|v.tasks| > |w.tasks| ==> CloseLike(v.tasks, |v.tasks| - 1))
  {
    hide Inv, Awaits;
    KnownIfListed(w, session);
    if Known(w, session) {
      CloseKnown(w, session);
      ClosedTasksGrow(w, CloseStep(w, session), session);
      hide CloseStep;
      AwaitsMore(w.tasks, CloseStep(w, session).tasks);
    } else {
      UnknownStep(w, session);
    }
  }

  lemma {:induction false} CloseAllAwaits(w: World, sessions: seq<SessionId>)
    requires Inv(w) && Awaits(w.tasks) && forall s :: s in sessions ==> s in w.sessions
    ensures var (v, closes) := CloseAll(w, sessions);
      && w.tasks <= v.tasks && Awaits(v.tasks) && forall c: TaskId :: c in closes ==> CloseLike(v.tasks, c)
    decreases |sessions|
  {
    hide Inv, CloseStep, Awaits;
    if sessions != [] {
      var init, last := sessions[..|sessions| - 1], sessions[|sessions| - 1];
      assert sessions == init + [last];
      CloseAllAwaits(w, init);
      CloseAllInv(w, init);
      var before := CloseAll(w, init).0;
      CloseAwaits(before, last);
      assert forall c: TaskId :: CloseLike(before.tasks, c) ==> CloseLike(CloseStep(before, last).tasks, c);
    }
  }

  lemma DisposeAwaits(w: World)
    requires Inv(w) && Awaits(w.tasks)
    ensures Awaits(DisposeStep(w).tasks)
  {
    hide Inv, CloseAll;
    var flagged := w.(disposed := true);
    AppendedInv(w, flagged);
    CloseAllAwaits(flagged, w.sessions);
    var tasks, after := CloseAll(flagged, w.sessions).0.tasks, DisposeStep(w).tasks;
    assert forall c: TaskId :: CloseLike(tasks, c) ==> CloseLike(after, c);
    assert forall c: TaskId :: CleanupLike(tasks, c) ==> CleanupLike(after, c);
  }

  lemma ResumeAwaits(w: World, t: TaskId)
    requires Inv(w) && Awaits(w.tasks) && t < |w.tasks| && ResumeStep(w, t).Some?
    ensures Awaits(ResumeStep(w, t).value.tasks)
  {
    hide StatesOk, LaunchesOk, JobsOk;
    var v := ResumeStep(w, t).value;
    assert forall c: TaskId :: CloseLike(w.tasks, c) ==> CloseLike(v.tasks, c);
    assert forall c: TaskId :: CleanupLike(w.tasks, c) ==> CleanupLike(v.tasks, c);
    if w.tasks[t].DisposeClosing? {
      forall c: TaskId | c in w.deferred ensures CleanupLike(v.tasks, c) { assert TaskOk(w, c); }
    }
  }

  lemma StepAwaits(w: World, a: Action)
    requires Inv(w) && Awaits(w.tasks) && Step(w, a).Some?
    ensures Awaits(Step(w, a).value.tasks)
  {
    hide Inv, Awaits, CloseStep, DisposeStep, ResumeStep;
    if a.Close? { CloseAwaits(w, a.session); }
    else if a.Dispose? { DisposeAwaits(w); }
    else if a.Resume? { ResumeAwaits(w, a.task); }
  }

  lemma {:induction false} RunAwaits(worlds: seq<World>, actions: seq<Action>, k: nat)
    requires IsRun(worlds, actions) && k < |worlds|
    ensures Awaits(worlds[k].tasks)
  {
    if k > 0 {
      hide Inv, Awaits, Step;
      RunInv(worlds, actions, k - 1);
      RunAwaits(worlds, actions, k - 1);
      assert Step(worlds[k - 1], actions[k - 1]) == Some(worlds[k - 1 + 1]);
      StepAwaits(worlds[k - 1], actions[k - 1]);
    }
  }

  /** How many resumptions a function still needs. */
  function Rank(task: Task): nat {
    match task
    case Closing(_, _) | Deferred(_, _) | DisposeClosing(_) => 2
    case Sweeping(_) | DeferredSweep | DisposeDeferred(_) => 1
    case Disposed | Done => 0
  }

  function Total(tasks: seq<Task>): nat {
    if tasks == [] then 0 else Total(tasks[..|tasks| - 1]) + Rank(tasks[|tasks| - 1])
  }

  lemma {:induction false} TotalUpdates(tasks: seq<Task>, t: TaskId, task: Task)
    requires t < |tasks|
    ensures Total(tasks[t := task]) == Total(tasks) - Rank(tasks[t]) + Rank(task)
    decreases |tasks|
  {
    hide Rank;
    var after, n := tasks[t := task], |tasks| - 1;
    if t < n {
      TotalUpdates(tasks[..n], t, task);
      assert after[..n] == tasks[..n][t := task];
    } else {
      assert after[..n] == tasks[..n];
    }
  }

  lemma ResumeLowers(w: World, t: TaskId)
    requires t < |w.tasks| && ResumeStep(w, t).Some?
    ensures var v := ResumeStep(w, t).value;
      && |v.tasks| == |w.tasks| && Total(v.tasks) < Total(w.tasks)
      && forall c :: 0 <= c < |w.tasks| && Disposes(w.tasks[c]) ==> Disposes(v.tasks[c])
  {
    hide Total;
    var v := ResumeStep(w, t).value;
    assert v.tasks == w.tasks[t := v.tasks[t]];
    TotalUpdates(w.tasks, t, v.tasks[t]);
  }

  predicate Disposes(task: Task) { task.DisposeClosing? || task.DisposeDeferred? || task.Disposed? }

  /** A dispose that is not over, after every launch has finished: some function can go on. */
  lemma SomeResumes(w: World, t: TaskId) returns (r: TaskId)
    requires Inv(w) && Awaits(w.tasks) && t < |w.tasks| && Disposes(w.tasks[t]) && !w.tasks[t].Disposed?
    requires forall l :: 0 <= l < |w.launches| ==> w.launches[l].finished
    ensures r < |w.tasks| && ResumeStep(w, r).Some?
  {
    hide Inv;
    r := t;
    if ResumeStep(w, t).None? {
      var awaited := if w.tasks[t].DisposeClosing? then w.tasks[t].closes else w.tasks[t].cleanups;
      assert !AllDone(w.tasks, awaited);
      r :| r in awaited && !(r < |w.tasks| && w.tasks[r].Done?);
      assert if w.tasks[t].DisposeClosing? then CloseLike(w.tasks, r) else CleanupLike(w.tasks, r);
      WaitsAreLaunches(w, r);
      if w.tasks[r].Closing? || w.tasks[r].Deferred? { WaitingEnds(w, r); }
    }
  }

  function Play(w: World, actions: seq<Action>): Option<World>
    decreases |actions|
  {
    if actions == [] then Some(w)
    else
      var v := Step(w, actions[0]);
      if v.Some? then Play(v.value, actions[1..]) else None
  }

  /** Every call of dispose leaves a function that awaits its closes. */
  lemma DisposeBegins(w: World)
    requires Inv(w)
    ensures var v := DisposeStep(w);
      v.disposed && |v.tasks| > |w.tasks| && w.tasks <= v.tasks && v.tasks[|v.tasks| - 1].DisposeClosing?
  {
    hide Inv, CloseAll;
    var flagged := w.(disposed := true);
    AppendedInv(w, flagged);
    CloseAllInv(flagged, w.sessions);
  }

  /** Once every launch has finished, letting the waiting functions go on, and nothing from outside, resolves every
      dispose that was called. */
  lemma {:induction false} DisposeSettles(w: World, t: TaskId) returns (actions: seq<Action>, v: World)
    requires Inv(w) && Awaits(w.tasks) && t < |w.tasks| && Disposes(w.tasks[t])
    requires forall l :: 0 <= l < |w.launches| ==> w.launches[l].finished
    ensures (forall a :: a in actions ==> a.Resume?) && Play(w, actions) == Some(v)
    ensures |v.tasks| == |w.tasks| && v.tasks[t].Disposed?
    decreases Total(w.tasks)
  {
    hide Inv, Awaits, ResumeStep, Total;
    if w.tasks[t].Disposed? {
      actions, v := [], w;
    } else {
      var r := SomeResumes(w, t);
      var u := ResumeStep(w, r).value;
      ResumeInv(w, r);
      ResumeAwaits(w, r);
      ResumeKeeps(w, r);
      ResumeLowers(w, r);
      var rest;
      rest, v := DisposeSettles(u, t);
      actions := [Resume(r)] + rest;
      assert actions[1..] == rest;
    }
  }

  lemma DisposeResolves(worlds: seq<World>, actions: seq<Action>, k: nat, t: TaskId) returns (more: seq<Action>, v: World)
    requires IsRun(worlds, actions) && k < |worlds| && t < |worlds[k].tasks| && Disposes(worlds[k].tasks[t])
    requires forall l :: 0 <= l < |worlds[k].launches| ==> worlds[k].launches[l].finished
    ensures (forall a :: a in more ==> a.Resume?) && Play(worlds[k], more) == Some(v)
    ensures |v.tasks| == |worlds[k].tasks| && v.tasks[t].Disposed?
  {
    RunInv(worlds, actions, k);
    RunAwaits(worlds, actions, k);
    more, v := DisposeSettles(worlds[k], t);
  }
}
