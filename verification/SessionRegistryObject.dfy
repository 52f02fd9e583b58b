/** The registry as it is written: variables updated in place, each method running up to the next await.
    Every method is proved to take the step of the same name, so what holds of every run holds of the object. */
module SessionRegistryObject {
  import opened JobState
  import opened SessionRegistry

  class Registry {
    var closedSessionIDs: set<SessionId>
    var sessions: seq<SessionId>
    var states: map<SessionId, State>
    var deferredCleanups: set<TaskId>
    var disposed: bool
    var launches: seq<Launch>
    var tasks: seq<Task>
    ghost var handed: multiset<JobId>
    ghost var origin: map<JobId, LaunchId>
    ghost var spoiled: set<JobId>

    ghost function View(): World
      reads this
    {
      World(closedSessionIDs, sessions, states, deferredCleanups, disposed, launches, tasks, handed, origin, spoiled)
    }

    ghost predicate Valid()
      reads this
    {
      Inv(View())
    }

    constructor ()
      ensures Valid() && View() == EMPTY
    {
      closedSessionIDs, sessions, states, deferredCleanups := {}, [], map[], {};
      disposed, launches, tasks := false, [], [];
      handed, origin, spoiled := multiset{}, map[], {};
      new;
      EmptyInv();
    }

    method Begin(session: SessionId, abortable: bool) returns (launch: Option<LaunchId>)
      requires Valid()
      modifies this
      ensures Valid() && View() == BeginStep(old(View()), session, abortable)
      // refused exactly when the registry is disposed or the session was closed
      ensures launch == if old(disposed) || session in old(closedSessionIDs) then None else Some(|old(launches)|)
      ensures launch.Some? ==> launches == old(launches) + [Launch(session, abortable, false, false)]
    {
      hide TasksOk, LaunchesOk, JobsOk;
      BeginInv(View(), session, abortable);
      if disposed || session in closedSessionIDs { return None; }
      var state := if session in sessions && session in states then states[session] else State({}, [], false, false);
      if session !in sessions { sessions := sessions + [session]; }
      if state.closing { return None; }
      launch := Some(|launches|);
      launches := launches + [Launch(session, abortable, false, false)];
      states := states[session := state.(pending := state.pending + [launch.value])];
    }

    method Track(launch: LaunchId, job: JobId)
      requires Valid() && launch < |launches|
      modifies this`states, this`origin, this`spoiled
      ensures Valid() && launches[launch].session in old(states) && View() == TrackStep(old(View()), launch, job)
    {
      assert launches[launch].session in states;
      TrackInv(View(), launch, job);
      hide Inv;
      var session := launches[launch].session;
      states := states[session := states[session].(jobs := states[session].jobs + {job})];
      ghost var first := job !in origin;
      if !first || launches[launch].finished { spoiled := spoiled + {job}; }
      if first { origin := origin[job := launch]; }
    }

    method Finish(launch: LaunchId)
      requires Valid() && launch < |launches|
      modifies this`states, this`launches
      ensures Valid() && old(launches)[launch].session in old(states) && View() == FinishStep(old(View()), launch)
    {
      assert launches[launch].session in states;
      FinishInv(View(), launch);
      hide Inv;
      var session := launches[launch].session;
      states := states[session := states[session].(pending := Without(states[session].pending, launch))];
      launches := launches[launch := launches[launch].(finished := true)];
    }

    /** The loop of `close`: abort what can be aborted, defer a cleanup for the rest. */
    method AbortOrDefer(session: SessionId, pending: seq<LaunchId>) returns (aborted: set<LaunchId>)
      requires AreLaunches(View(), pending)
      modifies this`launches, this`tasks, this`deferredCleanups
      ensures View() == Scan(old(View()), session, pending)
      ensures aborted == Abortable(old(View()), pending)
    {
      hide Scan, Abortable;
      ghost var w := View();
      aborted := {};
      ScanNone(w, session);
      assert pending[..0] == [];
      var i := 0;
      while i < |pending|
        invariant i <= |pending|
        invariant View() == Scan(w, session, pending[..i])
        invariant |launches| == |w.launches|
        invariant forall l :: 0 <= l < |launches| ==> launches[l].abortable == w.launches[l].abortable
        invariant aborted == Abortable(w, pending[..i])
      {
        var launch := pending[i];
        ScanNext(w, session, pending, i);
        if launches[launch].abortable {
          launches := launches[launch := launches[launch].(aborted := true)];
          aborted := aborted + {launch};
        } else {
          deferredCleanups := deferredCleanups + {|tasks|};
          tasks := tasks + [Deferred(session, launch)];
        }
        i := i + 1;
      }
      assert pending[..i] == pending;
    }

    /** Up to its first await: the close is now a suspended task. */
    method Close(session: SessionId)
      requires Valid()
      modifies this
      ensures Valid() && View() == CloseStep(old(View()), session)
    {
      hide Inv, Scan, Abortable;
      ghost var w := View();
      CloseInv(w, session);
      KnownIfListed(w, session);
      closedSessionIDs := closedSessionIDs + {session};
      if session !in sessions { return; }
      states := states[session := states[session].(closing := true)];
      ghost var marked := View();
      assert AreLaunches(marked, states[session].pending);
      AbortableOf(w, marked, states[session].pending);
      var aborted := AbortOrDefer(session, states[session].pending);
      tasks := tasks + [Closing(session, aborted)];
    }

    method Dispose()
      requires Valid()
      modifies this
      ensures Valid() && View() == DisposeStep(old(View()))
    {
      hide Inv, CloseStep, CloseAll;
      ghost var w := View();
      disposed := true;
      AppendedInv(w, View());
      ghost var flagged := View();
      DisposeInv(w);
      var keys := sessions;
      var closes: set<TaskId> := {};
      CloseAllNone(flagged);
      var i := 0;
      while i < |keys|
        invariant i <= |keys| && Valid()
        invariant keys[..0] == []
        invariant CloseAll(flagged, keys[..i]) == (View(), closes)
      {
        var before := |tasks|;
        ghost var at := View();
        CloseAllNext(flagged, keys, i);
        Close(keys[i]);
        assert View() == CloseStep(at, keys[i]) && |at.tasks| == before && |View().tasks| == |tasks|;
        closes := closes + if |tasks| > before then {|tasks| - 1} else {};
        i := i + 1;
      }
      assert keys[..i] == keys;
      tasks := tasks + [DisposeClosing(closes)];
    }

    /** `cancelTrackedJobs`: the jobs it hands to `cancelJob`. */
    method CancelTrackedJobs(session: SessionId) returns (jobs: set<JobId>)
      requires session in states
      modifies this`states, this`handed
      ensures jobs == old(states)[session].jobs && View() == Sweep(old(View()), session)
    {
      jobs := states[session].jobs;
      states := states[session := states[session].(jobs := {})];
      handed := handed + multiset(jobs);
    }

    /** A suspended function whose await is over goes on; None where it still has to wait. */
    method Resume(t: TaskId) returns (jobs: Option<set<JobId>>)
      requires Valid() && t < |tasks|
      modifies this
      ensures Valid()
      ensures jobs.Some? <==> ResumeStep(old(View()), t).Some?
      ensures View() == if jobs.Some? then ResumeStep(old(View()), t).value else old(View())
      ensures jobs.Some? ==> handed == old(handed) + multiset(jobs.value)
    {
      ghost var w := View();
      if ResumeStep(w, t).Some? { ResumeInv(w, t); }
      hide Inv, ResumeStep, Sweep, AllFinished, AllDone;
      var task := tasks[t];
      if task.Closing? || task.Deferred? {
        jobs := ResumeHandover(t);
      } else {
        var ok := ResumeSettled(t);
        var none: set<JobId> := {};
        jobs := if ok then Some(none) else None;
        assert handed + multiset(none) == handed;
      }
    }

    /** The launches a close or a cleanup waits for are over: the tracked jobs are handed to `cancelJob`. */
    method ResumeHandover(t: TaskId) returns (jobs: Option<set<JobId>>)
      requires t < |tasks| && (tasks[t].Closing? || tasks[t].Deferred?)
      modifies this`states, this`tasks, this`handed
      ensures jobs.Some? <==> ResumeStep(old(View()), t).Some?
      ensures View() == if jobs.Some? then ResumeStep(old(View()), t).value else old(View())
      ensures jobs.Some? ==> handed == old(handed) + multiset(jobs.value)
    {
      var task := tasks[t];
      var waits := if task.Closing? then task.waits else {task.launch};
      if !AllFinished(launches, waits) || task.session !in states { return None; }
      var handover := CancelTrackedJobs(task.session);
      if task.Closing? {
        states := states[task.session := states[task.session].(swept := true)];
        tasks := tasks[t := Sweeping(task.session)];
      } else {
        tasks := tasks[t := DeferredSweep];
      }
      jobs := Some(handover);
    }

    /** After the cancellations, and the awaits of `dispose`. */
    method ResumeSettled(t: TaskId) returns (ok: bool)
      requires t < |tasks| && !tasks[t].Closing? && !tasks[t].Deferred?
      modifies this`sessions, this`tasks, this`deferredCleanups
      ensures ok <==> ResumeStep(old(View()), t).Some?
      ensures View() == if ok then ResumeStep(old(View()), t).value else old(View())
    {
      ok := true;
      var task := tasks[t];
      if task.Sweeping? {
        sessions, tasks := Without(sessions, task.session), tasks[t := Done];
      } else if task.DeferredSweep? {
        deferredCleanups, tasks := deferredCleanups - {t}, tasks[t := Done];
      } else if task.DisposeClosing? && AllDone(tasks, task.closes) {
        tasks := tasks[t := DisposeDeferred(deferredCleanups)];
      } else if task.DisposeDeferred? && AllDone(tasks, task.cleanups) {
        tasks := tasks[t := Disposed];
      } else {
        ok := false;
      }
    }
  }

  lemma ScanNone(w: World, session: SessionId)
    ensures Scan(w, session, []) == w && Abortable(w, []) == {}
  {}

  lemma ScanNext(w: World, session: SessionId, pending: seq<LaunchId>, i: nat)
    requires i < |pending| && AreLaunches(w, pending)
    ensures var before, launch := Scan(w, session, pending[..i]), pending[i];
      Scan(w, session, pending[..i + 1]) ==
        if before.launches[launch].abortable
        then before.(launches := before.launches[launch := before.launches[launch].(aborted := true)])
        else before.(tasks := before.tasks + [Deferred(session, launch)], deferred := before.deferred + {|before.tasks|})
    ensures Abortable(w, pending[..i + 1]) == Abortable(w, pending[..i]) + if w.launches[pending[i]].abortable then {pending[i]} else {}
  {
    assert pending[..i + 1][..i] == pending[..i] && pending[..i + 1][i] == pending[i];
    assert pending[..i + 1] == pending[..i] + [pending[i]];
  }

  lemma AbortableOf(w: World, v: World, pending: seq<LaunchId>)
    requires v.launches == w.launches
    ensures Abortable(v, pending) == Abortable(w, pending)
  {}

  lemma CloseAllNone(w: World)
    ensures CloseAll(w, []) == (w, {})
  {}

  lemma CloseAllNext(w: World, keys: seq<SessionId>, i: nat)
    requires i < |keys|
    ensures CloseAll(w, keys[..i + 1]) ==
      var (before, closes) := CloseAll(w, keys[..i]);
      var after := CloseStep(before, keys[i]);
      (after, closes + if |after.tasks| > |before.tasks| then {|after.tasks| - 1} else {})
  {
    hide CloseStep;
    assert keys[..i + 1][..i] == keys[..i] && keys[..i + 1][i] == keys[i];
  }
}
