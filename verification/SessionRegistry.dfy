/** The session registry of the plugin: an asynchronous program between whose awaits anything may happen.
    A world holds the closure's variables and the suspended functions; a step runs one of them, or one
    call from outside, up to its next await. */
module SessionRegistry {
  import opened JobState

  type LaunchId = nat
  type TaskId = nat
  type JobId = string

  datatype Launch = Launch(session: SessionId, abortable: bool, finished: bool, aborted: bool)

  /** `swept` is history: some close of the session has handed its jobs over. */
  datatype State = State(jobs: set<JobId>, pending: seq<LaunchId>, closing: bool, swept: bool)

  /** A suspended function, named by what it awaits. */
  datatype Task =
    | Closing(session: SessionId, waits: set<LaunchId>)     // close: the aborted launches
    | Sweeping(session: SessionId)                          // close: the cancellations
    | Deferred(session: SessionId, launch: LaunchId)        // deferred cleanup: a launch that cannot be aborted
    | DeferredSweep                                         // deferred cleanup: the cancellations
    | DisposeClosing(closes: set<TaskId>)                   // dispose: its closes
    | DisposeDeferred(cleanups: set<TaskId>)                // dispose: the deferred cleanups
    | Disposed
    | Done

  /** `sessions` are the keys of the session map in insertion order; `states` the state objects, which
      outlive their key. The last three fields are history: how often a job was handed to `cancelJob`,
      the launch that first tracked it, and the jobs tracked twice or after their launch had finished. */
  datatype World = World(
    closed: set<SessionId>, sessions: seq<SessionId>, states: map<SessionId, State>, deferred: set<TaskId>,
    disposed: bool, launches: seq<Launch>, tasks: seq<Task>,
    handed: multiset<JobId>, origin: map<JobId, LaunchId>, spoiled: set<JobId>)

  datatype Action =
    | Begin(session: SessionId, abortable: bool)
    | Track(launch: LaunchId, job: JobId)
    | Finish(launch: LaunchId)
    | Close(session: SessionId)
    | Dispose
    | Resume(task: TaskId)

  const EMPTY := World({}, [], map[], {}, false, [], [], multiset{}, map[], {})

  // ---------------------------------------------------------------- the steps

  function Without<T(==, !new)>(s: seq<T>, x: T): (r: seq<T>)
    ensures forall y :: y in r <==> y in s && y != x
  {
    if s == [] then [] else if s[0] == x then Without(s[1..], x) else [s[0]] + Without(s[1..], x)
  }

  predicate MayBegin(w: World, session: SessionId) {
    !w.disposed && session !in w.closed && (session in w.sessions && session in w.states ==> !w.states[session].closing)
  }

  function BeginStep(w: World, session: SessionId, abortable: bool): World {
    if !MayBegin(w, session) then w
    else
      var known := session in w.sessions && session in w.states;
      var state := if known then w.states[session] else State({}, [], false, false);
      w.(sessions := if session in w.sessions then w.sessions else w.sessions + [session],
         states := w.states[session := state.(pending := state.pending + [|w.launches|])],
         launches := w.launches + [Launch(session, abortable, false, false)])
  }

  function TrackStep(w: World, launch: LaunchId, job: JobId): World
    requires launch < |w.launches| && w.launches[launch].session in w.states
  {
    var session := w.launches[launch].session;
    var first := job !in w.origin;
    w.(states := w.states[session := w.states[session].(jobs := w.states[session].jobs + {job})],
       origin := if first then w.origin[job := launch] else w.origin,
       spoiled := if first && !w.launches[launch].finished then w.spoiled else w.spoiled + {job})
  }

  function FinishStep(w: World, launch: LaunchId): World
    requires launch < |w.launches| && w.launches[launch].session in w.states
  {
    var session := w.launches[launch].session;
    w.(states := w.states[session := w.states[session].(pending := Without(w.states[session].pending, launch))],
       launches := w.launches[launch := w.launches[launch].(finished := true)])
  }

  predicate AreLaunches(w: World, pending: seq<LaunchId>) {
    forall i :: 0 <= i < |pending| ==> pending[i] < |w.launches|
  }

  /** The loop of `close` over the pending launches: abort, or defer a cleanup. */
  function Scan(w: World, session: SessionId, pending: seq<LaunchId>): (v: World)
    requires AreLaunches(w, pending)
    ensures |v.launches| == |w.launches|
    decreases |pending|
  {
    if pending == [] then w
    else
      var last := pending[|pending| - 1];
      var before := Scan(w, session, pending[..|pending| - 1]);
      if before.launches[last].abortable
      then before.(launches := before.launches[last := before.launches[last].(aborted := true)])
      else before.(tasks := before.tasks + [Deferred(session, last)], deferred := before.deferred + {|before.tasks|})
  }

  function Abortable(w: World, pending: seq<LaunchId>): set<LaunchId> {
    set l | l in pending && l < |w.launches| && w.launches[l].abortable
  }

  predicate Known(w: World, session: SessionId) {
    session in w.sessions && session in w.states && AreLaunches(w, w.states[session].pending)
  }

  function CloseStep(w: World, session: SessionId): World {
    var marked := w.(closed := w.closed + {session});
    if !Known(w, session) then marked
    else
      var state := w.states[session];
      var scanned := Scan(marked.(states := w.states[session := state.(closing := true)]), session, state.pending);
      scanned.(tasks := scanned.tasks + [Closing(session, Abortable(w, state.pending))])
  }

  /** The closes that `dispose` starts, one for each session; the ids of their tasks. */
  function CloseAll(w: World, sessions: seq<SessionId>): (World, set<TaskId>) {
    if sessions == [] then (w, {})
    else
      var (before, closes) := CloseAll(w, sessions[..|sessions| - 1]);
      var after := CloseStep(before, sessions[|sessions| - 1]);
      (after, closes + if |after.tasks| > |before.tasks| then {|after.tasks| - 1} else {})
  }

  function DisposeStep(w: World): World {
    var (after, closes) := CloseAll(w.(disposed := true), w.sessions);
    after.(tasks := after.tasks + [DisposeClosing(closes)])
  }

  /** `cancelTrackedJobs` up to its await. */
  function Sweep(w: World, session: SessionId): World
    requires session in w.states
  {
    w.(handed := w.handed + multiset(w.states[session].jobs), states := w.states[session := w.states[session].(jobs := {})])
  }

  predicate AllFinished(launches: seq<Launch>, ids: set<LaunchId>) {
    forall l :: l in ids ==> l < |launches| && launches[l].finished
  }

  predicate AllDone(tasks: seq<Task>, ids: set<TaskId>) {
    forall t :: t in ids ==> t < |tasks| && tasks[t].Done?
  }

  function ResumeStep(w: World, t: TaskId): Option<World>
    requires t < |w.tasks|
  {
    var task := w.tasks[t];
    if task.Closing? then
      if !AllFinished(w.launches, task.waits) || task.session !in w.states then None
      else
        var v := Sweep(w, task.session);
        Some(v.(tasks := w.tasks[t := Sweeping(task.session)],
                states := v.states[task.session := v.states[task.session].(swept := true)]))
    else if task.Sweeping? then Some(w.(sessions := Without(w.sessions, task.session), tasks := w.tasks[t := Done]))
    else if task.Deferred? then
      if !AllFinished(w.launches, {task.launch}) || task.session !in w.states then None
      else Some(Sweep(w, task.session).(tasks := w.tasks[t := DeferredSweep]))
    else if task.DeferredSweep? then Some(w.(deferred := w.deferred - {t}, tasks := w.tasks[t := Done]))
    else if task.DisposeClosing? then
      if AllDone(w.tasks, task.closes) then Some(w.(tasks := w.tasks[t := DisposeDeferred(w.deferred)])) else None
    else if task.DisposeDeferred? then
      if AllDone(w.tasks, task.cleanups) then Some(w.(tasks := w.tasks[t := Disposed])) else None
    else None
  }

  function Step(w: World, a: Action): Option<World> {
    match a
    case Begin(session, abortable) => Some(BeginStep(w, session, abortable))
    case Track(launch, job) =>
      if launch < |w.launches| && w.launches[launch].session in w.states then Some(TrackStep(w, launch, job)) else None
    case Finish(launch) =>
      if launch < |w.launches| && w.launches[launch].session in w.states then Some(FinishStep(w, launch)) else None
    case Close(session) => Some(CloseStep(w, session))
    case Dispose => Some(DisposeStep(w))
    case Resume(t) => if t < |w.tasks| then ResumeStep(w, t) else None
  }

  // ---------------------------------------------------------------- the invariant

  predicate IsLaunchOf(w: World, l: LaunchId, s: SessionId) { l < |w.launches| && w.launches[l].session == s }

  predicate Waiting(w: World, l: LaunchId, s: SessionId) { IsLaunchOf(w, l, s) && !w.launches[l].finished }

  ghost predicate HasDeferred(w: World, s: SessionId, l: LaunchId) {
    exists t :: 0 <= t < |w.tasks| && w.tasks[t] == Deferred(s, l)
  }

  predicate IsClose(w: World, t: TaskId, s: SessionId) {
    t < |w.tasks| && (w.tasks[t].Closing? || w.tasks[t].Sweeping?) && w.tasks[t].session == s
  }

  predicate IsCleanup(w: World, t: TaskId) { t < |w.tasks| && (w.tasks[t].Deferred? || w.tasks[t].DeferredSweep?) }

  ghost predicate HasClosing(w: World, s: SessionId) {
    exists t :: 0 <= t < |w.tasks| && w.tasks[t].Closing? && w.tasks[t].session == s
  }

  /** The state objects agree with the launches and the map. */
  ghost predicate StatesOk(w: World) {
    && (forall l :: 0 <= l < |w.launches| ==> w.launches[l].session in w.states)
    && (forall s, l :: s in w.states ==> (l in w.states[s].pending <==> Waiting(w, l, s)))
    && (forall s :: s in w.sessions ==> s in w.states)
    && (forall s :: s in w.states && s !in w.sessions ==> w.states[s].swept)
    && (forall s :: s in w.states ==> (w.states[s].closing <==> s in w.closed) && (w.states[s].swept ==> w.states[s].closing))
  }

  /** An unfinished launch of a closing session is awaited: by a close if it was aborted, else by a cleanup of its own. */
  ghost predicate LaunchesOk(w: World) {
    forall l :: 0 <= l < |w.launches| && !w.launches[l].finished && w.launches[l].session in w.closed ==>
      var launch := w.launches[l];
      if launch.abortable then launch.session in w.states && !w.states[launch.session].swept
      else HasDeferred(w, launch.session, l)
  }

  ghost predicate TaskOk(w: World, t: TaskId)
    requires t < |w.tasks|
  {
    var task := w.tasks[t];
    && (t in w.deferred <==> task.Deferred? || task.DeferredSweep?)
    && (task.Closing? ==>
          && task.session in w.states && w.states[task.session].closing
          && (forall l: LaunchId :: l in task.waits ==> IsLaunchOf(w, l, task.session))
          && forall l: LaunchId :: Waiting(w, l, task.session) && w.launches[l].abortable ==> l in task.waits)
    && (task.Sweeping? ==> task.session in w.states && w.states[task.session].swept)
    && (task.Deferred? ==> IsLaunchOf(w, task.launch, task.session))
    && (task.DisposeClosing? ==> w.disposed && forall s :: s in w.sessions ==> exists c :: c in task.closes && IsClose(w, c, s))
    && (task.DisposeDeferred? ==> w.disposed && w.sessions == [] && forall c :: IsCleanup(w, c) ==> c in task.cleanups)
    && (task.Disposed? ==> w.disposed && w.sessions == [] && forall c :: !IsCleanup(w, c))
  }

  ghost predicate TasksOk(w: World) {
    && (forall t :: 0 <= t < |w.tasks| ==> TaskOk(w, t))
    && (forall t :: t in w.deferred ==> t < |w.tasks|)
    && (forall s :: s in w.states && w.states[s].closing && !w.states[s].swept ==> HasClosing(w, s))
  }

  /** A job tracked once and in time is either still listed or was handed over once; once its session was
      swept, only a job whose launch has its own cleanup ahead is still listed. */
  ghost predicate JobOk(w: World, j: JobId)
    requires j in w.origin
  {
    var l := w.origin[j];
    && l < |w.launches| && w.launches[l].session in w.states
    && var s := w.launches[l].session;
      && (forall other :: other in w.states && j in w.states[other].jobs ==> other == s)
      && w.handed[j] + (if j in w.states[s].jobs then 1 else 0) == 1
      && (j in w.states[s].jobs && w.states[s].swept ==> !w.launches[l].abortable && HasDeferred(w, s, l))
  }

  ghost predicate JobsOk(w: World) {
    && (forall j :: j in w.origin && j !in w.spoiled ==> JobOk(w, j))
    && (forall s, j :: s in w.states && j in w.states[s].jobs ==> j in w.origin)
    && (forall j :: j in w.handed ==> j in w.origin)
  }

  ghost predicate Inv(w: World) {
    StatesOk(w) && LaunchesOk(w) && TasksOk(w) && JobsOk(w)
  }

  lemma EmptyInv()
    ensures Inv(EMPTY)
  {}

  // ---------------------------------------------------------------- begin, track, finish

  lemma BeginInv(w: World, session: SessionId, abortable: bool)
    requires Inv(w)
    ensures Inv(BeginStep(w, session, abortable))
  {
    hide JobOk, TaskOk;
    var v := BeginStep(w, session, abortable);
    if MayBegin(w, session) {
      assert session in w.states ==> session in w.sessions;
      forall t | 0 <= t < |v.tasks| ensures TaskOk(v, t) { BeginTask(w, session, abortable, t); }
      forall j | j in v.origin && j !in v.spoiled ensures JobOk(v, j) { BeginJob(w, session, abortable, j); }
      forall s | s in v.states && v.states[s].closing && !v.states[s].swept ensures HasClosing(v, s) {
        assert HasClosing(w, s);
      }
      forall l | 0 <= l < |v.launches| && !v.launches[l].finished && v.launches[l].session in v.closed
        ensures !v.launches[l].abortable ==> HasDeferred(v, v.launches[l].session, l)
      {
        assert v.launches[l] == w.launches[l];
        assert !w.launches[l].abortable ==> HasDeferred(w, w.launches[l].session, l);
      }
    }
  }

  lemma BeginTask(w: World, session: SessionId, abortable: bool, t: TaskId)
    requires Inv(w) && MayBegin(w, session) && t < |w.tasks|
    ensures TaskOk(BeginStep(w, session, abortable), t)
  {
    hide JobsOk, LaunchesOk;
    assert TaskOk(w, t);
    var v := BeginStep(w, session, abortable);
    assert session in w.states ==> session in w.sessions && !w.states[session].closing;
    if w.tasks[t].Closing? {
      assert forall l :: Waiting(v, l, w.tasks[t].session) ==> Waiting(w, l, w.tasks[t].session);
    }
  }

  lemma BeginJob(w: World, session: SessionId, abortable: bool, j: JobId)
    requires Inv(w) && MayBegin(w, session) && j in w.origin && j !in w.spoiled
    ensures JobOk(BeginStep(w, session, abortable), j)
  {
    hide TasksOk, LaunchesOk;
    assert JobOk(w, j);
    var l := w.origin[j];
    var v := BeginStep(w, session, abortable);
    assert v.launches[l] == w.launches[l];
    assert HasDeferred(w, w.launches[l].session, l) ==> HasDeferred(v, w.launches[l].session, l);
  }

  lemma TrackInv(w: World, launch: LaunchId, job: JobId)
    requires Inv(w) && launch < |w.launches| && w.launches[launch].session in w.states
    ensures Inv(TrackStep(w, launch, job))
  {
    hide JobOk, TaskOk;
    var v := TrackStep(w, launch, job);
    forall t | 0 <= t < |v.tasks| ensures TaskOk(v, t) { TrackTask(w, launch, job, t); }
    forall j | j in v.origin && j !in v.spoiled ensures JobOk(v, j) { TrackJob(w, launch, job, j); }
    forall s | s in v.states && v.states[s].closing && !v.states[s].swept ensures HasClosing(v, s) {
      assert HasClosing(w, s);
    }
    forall l | 0 <= l < |v.launches| && !v.launches[l].finished && v.launches[l].session in v.closed
      ensures !v.launches[l].abortable ==> HasDeferred(v, v.launches[l].session, l)
    {
      assert !w.launches[l].abortable ==> HasDeferred(w, w.launches[l].session, l);
    }
  }

  lemma TrackTask(w: World, launch: LaunchId, job: JobId, t: TaskId)
    requires Inv(w) && launch < |w.launches| && w.launches[launch].session in w.states && t < |w.tasks|
    ensures TaskOk(TrackStep(w, launch, job), t)
  {
    hide JobsOk, LaunchesOk;
    assert TaskOk(w, t);
    var v := TrackStep(w, launch, job);
    assert forall l, s :: Waiting(v, l, s) == Waiting(w, l, s);
    assert forall c :: IsCleanup(v, c) == IsCleanup(w, c);
    assert forall c, s :: IsClose(v, c, s) == IsClose(w, c, s);
  }

  lemma TrackJob(w: World, launch: LaunchId, job: JobId, j: JobId)
    requires Inv(w) && launch < |w.launches| && w.launches[launch].session in w.states
    requires j in TrackStep(w, launch, job).origin && j !in TrackStep(w, launch, job).spoiled
    ensures JobOk(TrackStep(w, launch, job), j)
  {
    hide TasksOk;
    var v := TrackStep(w, launch, job);
    assert forall s, l :: HasDeferred(v, s, l) == HasDeferred(w, s, l);
    if j != job {
      assert JobOk(w, j);
    } else {
      assert j !in w.origin && w.handed[j] == 0;
      assert Waiting(w, launch, w.launches[launch].session);
    }
  }

  lemma FinishInv(w: World, launch: LaunchId)
    requires Inv(w) && launch < |w.launches| && w.launches[launch].session in w.states
    ensures Inv(FinishStep(w, launch))
  {
    hide JobOk, TaskOk;
    var v := FinishStep(w, launch);
    forall t | 0 <= t < |v.tasks| ensures TaskOk(v, t) { FinishTask(w, launch, t); }
    forall j | j in v.origin && j !in v.spoiled ensures JobOk(v, j) { FinishJob(w, launch, j); }
    forall s | s in v.states && v.states[s].closing && !v.states[s].swept ensures HasClosing(v, s) {
      assert HasClosing(w, s);
    }
    forall l | 0 <= l < |v.launches| && !v.launches[l].finished && v.launches[l].session in v.closed
      ensures !v.launches[l].abortable ==> HasDeferred(v, v.launches[l].session, l)
    {
      assert !w.launches[l].abortable ==> HasDeferred(w, w.launches[l].session, l);
    }
  }

  lemma FinishTask(w: World, launch: LaunchId, t: TaskId)
    requires Inv(w) && launch < |w.launches| && w.launches[launch].session in w.states && t < |w.tasks|
    ensures TaskOk(FinishStep(w, launch), t)
  {
    hide JobsOk, LaunchesOk;
    assert TaskOk(w, t);
    var v := FinishStep(w, launch);
    assert forall l, s :: Waiting(v, l, s) ==> Waiting(w, l, s);
    assert forall c :: IsCleanup(v, c) == IsCleanup(w, c);
    assert forall c, s :: IsClose(v, c, s) == IsClose(w, c, s);
  }

  lemma FinishJob(w: World, launch: LaunchId, j: JobId)
    requires Inv(w) && launch < |w.launches| && w.launches[launch].session in w.states
    requires j in w.origin && j !in w.spoiled
    ensures JobOk(FinishStep(w, launch), j)
  {
    hide TasksOk, LaunchesOk;
    var v := FinishStep(w, launch);
    assert forall s, l :: HasDeferred(v, s, l) == HasDeferred(w, s, l);
    assert JobOk(w, j);
  }

  // ---------------------------------------------------------------- close and dispose

  /** What the scan of a close leaves as it was, and what it adds. */
  ghost predicate Scanned(w: World, v: World, session: SessionId, pending: seq<LaunchId>) {
    && v.(launches := w.launches, tasks := w.tasks, deferred := w.deferred) == w
    && |v.launches| == |w.launches| && w.tasks <= v.tasks
    && (forall l :: 0 <= l < |w.launches| ==> v.launches[l].(aborted := w.launches[l].aborted) == w.launches[l])
    && (forall t :: t in v.deferred <==> t in w.deferred || |w.tasks| <= t < |v.tasks|)
    && (forall t :: |w.tasks| <= t < |v.tasks| ==>
          v.tasks[t].Deferred? && v.tasks[t].session == session && v.tasks[t].launch in pending)
    && (forall l :: l in pending && l < |w.launches| && !w.launches[l].abortable ==> HasDeferred(v, session, l))
  }

  lemma AbortScanned(w: World, v: World, session: SessionId, init: seq<LaunchId>, last: LaunchId)
    requires Scanned(w, v, session, init) && last < |w.launches| && w.launches[last].abortable
    ensures Scanned(w, v.(launches := v.launches[last := v.launches[last].(aborted := true)]), session, init + [last])
  {
    var after := v.(launches := v.launches[last := v.launches[last].(aborted := true)]);
    assert forall l :: HasDeferred(v, session, l) ==> HasDeferred(after, session, l);
  }

  lemma DeferScanned(w: World, v: World, session: SessionId, init: seq<LaunchId>, last: LaunchId)
    requires Scanned(w, v, session, init)
    ensures Scanned(w, v.(tasks := v.tasks + [Deferred(session, last)], deferred := v.deferred + {|v.tasks|}), session, init + [last])
  {
    var after := v.(tasks := v.tasks + [Deferred(session, last)], deferred := v.deferred + {|v.tasks|});
    assert after.tasks[|v.tasks|] == Deferred(session, last);
    forall l | HasDeferred(v, session, l) ensures HasDeferred(after, session, l) {
      var t :| 0 <= t < |v.tasks| && v.tasks[t] == Deferred(session, l);
      assert after.tasks[t] == v.tasks[t];
    }
  }

  lemma {:induction false} ScanIsScanned(w: World, session: SessionId, pending: seq<LaunchId>)
    requires AreLaunches(w, pending)
    ensures Scanned(w, Scan(w, session, pending), session, pending)
    decreases |pending|
  {
    if pending != [] {
      hide Scanned;
      var last, init := pending[|pending| - 1], pending[..|pending| - 1];
      assert pending == init + [last];
      ScanIsScanned(w, session, init);
      var before := Scan(w, session, init);
      ScannedLaunch(w, before, session, init, last);
      if w.launches[last].abortable {
        AbortScanned(w, before, session, init, last);
      } else {
        DeferScanned(w, before, session, init, last);
      }
    }
  }

  lemma ScannedLaunch(w: World, v: World, session: SessionId, pending: seq<LaunchId>, l: LaunchId)
    requires Scanned(w, v, session, pending) && l < |w.launches|
    ensures l < |v.launches| && v.launches[l].abortable == w.launches[l].abortable
  {}

  lemma CloseUnknown(w: World, session: SessionId)
    requires Inv(w) && session !in w.sessions
    ensures Inv(w.(closed := w.closed + {session}))
  {
    hide JobOk, TaskOk;
    var v := w.(closed := w.closed + {session});
    forall t | 0 <= t < |v.tasks| ensures TaskOk(v, t) {
      assert TaskOk(w, t);
      CloseUnknownTask(w, session, t);
    }
    forall j | j in v.origin && j !in v.spoiled ensures JobOk(v, j) {
      assert JobOk(w, j);
      CloseUnknownJob(w, session, j);
    }
    forall s | s in v.states && v.states[s].closing && !v.states[s].swept ensures HasClosing(v, s) {
      assert HasClosing(w, s);
    }
    forall l | 0 <= l < |v.launches| && !v.launches[l].finished && v.launches[l].session in v.closed
      ensures !v.launches[l].abortable ==> HasDeferred(v, v.launches[l].session, l)
    {
      assert w.launches[l].session in w.closed;
      assert !w.launches[l].abortable ==> HasDeferred(w, w.launches[l].session, l);
    }
  }

  lemma CloseUnknownTask(w: World, session: SessionId, t: TaskId)
    requires t < |w.tasks| && TaskOk(w, t)
    ensures TaskOk(w.(closed := w.closed + {session}), t)
  {
    var v := w.(closed := w.closed + {session});
    assert forall l, s :: Waiting(v, l, s) == Waiting(w, l, s);
    assert forall c :: IsCleanup(v, c) == IsCleanup(w, c);
    assert forall c, s :: IsClose(v, c, s) == IsClose(w, c, s);
  }

  lemma CloseUnknownJob(w: World, session: SessionId, j: JobId)
    requires j in w.origin && JobOk(w, j)
    ensures JobOk(w.(closed := w.closed + {session}), j)
  {
    var v := w.(closed := w.closed + {session});
    assert forall s, l :: HasDeferred(v, s, l) == HasDeferred(w, s, l);
  }

  /** What `close` adds to a world: its session is closing, its pending launches are aborted or have a
      cleanup, and a close awaits the aborted ones. */
  ghost predicate ClosedTo(w: World, v: World, session: SessionId) {
    && session in w.states
    && v.closed == w.closed + {session} && v.sessions == w.sessions && v.disposed == w.disposed
    && v.states == w.states[session := w.states[session].(closing := true)]
    && v.handed == w.handed && v.origin == w.origin && v.spoiled == w.spoiled
    && |v.launches| == |w.launches|
    && (forall l :: 0 <= l < |w.launches| ==> v.launches[l].(aborted := w.launches[l].aborted) == w.launches[l])
    && |v.tasks| > |w.tasks| && w.tasks == v.tasks[..|w.tasks|]
    && (forall t :: t in v.deferred <==> t in w.deferred || |w.tasks| <= t < |v.tasks| - 1)
    && (forall t :: |w.tasks| <= t < |v.tasks| - 1 ==>
          v.tasks[t].Deferred? && IsLaunchOf(w, v.tasks[t].launch, session) && v.tasks[t].session == session)
    && v.tasks[|v.tasks| - 1].Closing? && v.tasks[|v.tasks| - 1].session == session
    && (forall l: LaunchId :: l in v.tasks[|v.tasks| - 1].waits <==> Waiting(w, l, session) && w.launches[l].abortable)
    && (forall l: LaunchId :: Waiting(w, l, session) && !w.launches[l].abortable ==> HasDeferred(v, session, l))
  }

  lemma CloseKnown(w: World, session: SessionId)
    requires Inv(w) && Known(w, session)
    ensures ClosedTo(w, CloseStep(w, session), session)
  {
    hide TasksOk, LaunchesOk, JobsOk, Scan;
    var state, v := w.states[session], CloseStep(w, session);
    var marked := w.(closed := w.closed + {session}, states := w.states[session := state.(closing := true)]);
    ScanIsScanned(marked, session, state.pending);
    var scanned := Scan(marked, session, state.pending);
    assert forall l: LaunchId :: l in state.pending <==> Waiting(w, l, session);
    forall l: LaunchId | Waiting(w, l, session) && !w.launches[l].abortable ensures HasDeferred(v, session, l) {
      assert HasDeferred(scanned, session, l);
      var t :| 0 <= t < |scanned.tasks| && scanned.tasks[t] == Deferred(session, l);
      assert v.tasks[t] == Deferred(session, l);
    }
  }

  lemma ClosedTasks(w: World, v: World, session: SessionId, t: TaskId)
    requires StatesOk(w) && ClosedTo(w, v, session) && session in w.sessions && t < |v.tasks|
    requires t < |w.tasks| ==> TaskOk(w, t)
    requires forall c :: c in w.deferred ==> c < |w.tasks|
    ensures TaskOk(v, t)
  {
    assert forall l: LaunchId, s :: Waiting(v, l, s) == Waiting(w, l, s);
    if t < |w.tasks| {
      assert v.tasks[t] == w.tasks[t];
      if w.tasks[t].DisposeClosing? {
        forall s | s in v.sessions ensures exists c :: c in v.tasks[t].closes && IsClose(v, c, s) {
          var c :| c in w.tasks[t].closes && IsClose(w, c, s);
          assert v.tasks[c] == w.tasks[c];
          assert IsClose(v, c, s);
        }
      }
    } else if t == |v.tasks| - 1 {
      forall l: LaunchId | l in v.tasks[t].waits ensures IsLaunchOf(v, l, session) { assert Waiting(w, l, session); }
    }
  }

  lemma ClosedJob(w: World, v: World, session: SessionId, j: JobId)
    requires ClosedTo(w, v, session) && j in w.origin && JobOk(w, j)
    ensures JobOk(v, j)
  {
    var l := w.origin[j];
    var s := w.launches[l].session;
    if HasDeferred(w, s, l) { DeferredStays(w, v, session, s, l); }
  }

  lemma DeferredStays(w: World, v: World, session: SessionId, s: SessionId, l: LaunchId)
    requires ClosedTo(w, v, session) && HasDeferred(w, s, l)
    ensures HasDeferred(v, s, l)
  {
    var t :| 0 <= t < |w.tasks| && w.tasks[t] == Deferred(s, l);
    assert v.tasks[t] == w.tasks[t];
  }

  lemma ClosedInv(w: World, v: World, session: SessionId)
    requires Inv(w) && session in w.sessions && ClosedTo(w, v, session)
    ensures Inv(v) && IsClose(v, |v.tasks| - 1, session)
  {
    hide JobOk, TaskOk;
    forall t | 0 <= t < |v.tasks| ensures TaskOk(v, t) { ClosedTasks(w, v, session, t); }
    forall j | j in v.origin && j !in v.spoiled ensures JobOk(v, j) { ClosedJob(w, v, session, j); }
    assert forall l: LaunchId, s :: Waiting(v, l, s) == Waiting(w, l, s);
    forall s | s in v.states && v.states[s].closing && !v.states[s].swept ensures HasClosing(v, s) {
      if s == session {
        assert v.tasks[|v.tasks| - 1].session == s;
      } else {
        assert HasClosing(w, s);
        var t :| 0 <= t < |w.tasks| && w.tasks[t].Closing? && w.tasks[t].session == s;
        assert v.tasks[t] == w.tasks[t];
      }
    }
    ClosedLaunches(w, v, session);
  }

  lemma ClosedLaunches(w: World, v: World, session: SessionId)
    requires StatesOk(w) && LaunchesOk(w) && session in w.sessions && ClosedTo(w, v, session)
    requires w.states[session].swept ==> session in w.closed
    ensures LaunchesOk(v)
  {
    forall l | 0 <= l < |v.launches| && !v.launches[l].finished && v.launches[l].session in v.closed
      ensures var launch := v.launches[l];
        if launch.abortable then launch.session in v.states && !v.states[launch.session].swept
        else HasDeferred(v, launch.session, l)
    {
      var s := w.launches[l].session;
      if s == session {
        assert Waiting(w, l, session);
      } else if !w.launches[l].abortable {
        DeferredStays(w, v, session, s, l);
      }
    }
  }

  lemma CloseInv(w: World, session: SessionId)
    requires Inv(w)
    ensures var v := CloseStep(w, session);
      && Inv(v) && v.sessions == w.sessions && v.disposed == w.disposed && w.tasks <= v.tasks
      && (session in w.sessions ==> |v.tasks| > |w.tasks| && IsClose(v, |v.tasks| - 1, session))
      && (session !in w.sessions ==> v.tasks == w.tasks)
  {
    hide Inv, CloseStep, ClosedTo, IsClose;
    KnownIfListed(w, session);
    if Known(w, session) {
      CloseKnown(w, session);
      ClosedInv(w, CloseStep(w, session), session);
      ClosedTasksGrow(w, CloseStep(w, session), session);
    } else {
      CloseUnknown(w, session);
      UnknownStep(w, session);
    }
  }

  lemma UnknownStep(w: World, session: SessionId)
    requires !Known(w, session)
    ensures CloseStep(w, session) == w.(closed := w.closed + {session})
  {}

  lemma KnownIfListed(w: World, session: SessionId)
    requires Inv(w)
    ensures Known(w, session) <==> session in w.sessions
  {
    hide LaunchesOk, TasksOk, JobsOk;
    if session in w.sessions {
      var pending := w.states[session].pending;
      forall i | 0 <= i < |pending| ensures pending[i] < |w.launches| {
        assert pending[i] in pending;
        assert Waiting(w, pending[i], session);
      }
    }
  }

  lemma ClosedTasksGrow(w: World, v: World, session: SessionId)
    requires ClosedTo(w, v, session)
    ensures w.tasks <= v.tasks && |v.tasks| > |w.tasks| && v.sessions == w.sessions && v.disposed == w.disposed
  {}

  /** `closes` holds a close for each of `sessions`. */
  ghost predicate Closes(w: World, sessions: seq<SessionId>, closes: set<TaskId>) {
    forall s :: s in sessions ==> exists c :: c in closes && IsClose(w, c, s)
  }

  lemma {:induction false} CloseAllInv(w: World, sessions: seq<SessionId>)
    requires Inv(w) && forall s :: s in sessions ==> s in w.sessions
    ensures var (v, closes) := CloseAll(w, sessions);
      Inv(v) && v.sessions == w.sessions && v.disposed == w.disposed && w.tasks <= v.tasks && Closes(v, sessions, closes)
    decreases |sessions|
  {
    hide Inv, CloseStep, IsClose;
    if sessions != [] {
      var init, last := sessions[..|sessions| - 1], sessions[|sessions| - 1];
      assert sessions == init + [last];
      CloseAllInv(w, init);
      var (before, closes) := CloseAll(w, init);
      CloseInv(before, last);
      var after := CloseStep(before, last);
      var all := closes + {|after.tasks| - 1};
      forall s | s in sessions ensures exists c :: c in all && IsClose(after, c, s) {
        if s in init {
          var c :| c in closes && IsClose(before, c, s);
          CloseStays(before, after, c, s);
        } else {
          assert |after.tasks| - 1 in all && IsClose(after, |after.tasks| - 1, s);
        }
      }
    }
  }

  lemma CloseStays(w: World, v: World, c: TaskId, s: SessionId)
    requires IsClose(w, c, s) && w.tasks <= v.tasks
    ensures IsClose(v, c, s)
  {}

  /** One more task, and perhaps the disposal flag: everything else stands as it did. */
  lemma AppendedInv(w: World, v: World)
    requires Inv(w) && |v.tasks| <= |w.tasks| + 1 && w.tasks <= v.tasks && (w.disposed ==> v.disposed)
    requires v == w.(tasks := v.tasks, disposed := v.disposed)
    requires |v.tasks| > |w.tasks| ==> v.tasks[|w.tasks|].DisposeClosing? && v.disposed && Closes(v, w.sessions, v.tasks[|w.tasks|].closes)
    ensures Inv(v)
  {
    hide JobOk, TaskOk;
    forall s, l | HasDeferred(w, s, l) ensures HasDeferred(v, s, l) {
      var t :| 0 <= t < |w.tasks| && w.tasks[t] == Deferred(s, l);
      assert v.tasks[t] == w.tasks[t];
    }
    forall t | 0 <= t < |v.tasks| ensures TaskOk(v, t) {
      if t < |w.tasks| { assert TaskOk(w, t); }
      AppendedTask(w, v, t);
    }
    forall j | j in v.origin && j !in v.spoiled ensures JobOk(v, j) {
      assert JobOk(w, j);
      AppendedJob(w, v, j);
    }
    forall s | s in v.states && v.states[s].closing && !v.states[s].swept ensures HasClosing(v, s) {
      assert HasClosing(w, s);
      var t :| 0 <= t < |w.tasks| && w.tasks[t].Closing? && w.tasks[t].session == s;
      assert v.tasks[t] == w.tasks[t];
    }
  }

  lemma AppendedTask(w: World, v: World, t: TaskId)
    requires t < |v.tasks| <= |w.tasks| + 1 && w.tasks <= v.tasks && (w.disposed ==> v.disposed)
    requires v == w.(tasks := v.tasks, disposed := v.disposed)
    requires forall c :: c in w.deferred ==> c < |w.tasks|
    requires if t < |w.tasks| then TaskOk(w, t) else v.tasks[t].DisposeClosing? && v.disposed && Closes(v, w.sessions, v.tasks[t].closes)
    requires |v.tasks| > |w.tasks| ==> v.tasks[|w.tasks|].DisposeClosing?
    ensures TaskOk(v, t)
  {
    assert forall l: LaunchId, s :: Waiting(v, l, s) == Waiting(w, l, s);
    if t < |w.tasks| {
      assert v.tasks[t] == w.tasks[t];
      forall c: TaskId | IsCleanup(v, c) ensures IsCleanup(w, c) { assert c < |w.tasks| ==> v.tasks[c] == w.tasks[c]; }
      forall c: TaskId, s | IsClose(w, c, s) ensures IsClose(v, c, s) { CloseStays(w, v, c, s); }
    }
  }

  lemma AppendedJob(w: World, v: World, j: JobId)
    requires j in w.origin && JobOk(w, j) && v == w.(tasks := v.tasks, disposed := v.disposed)
    requires forall s, l :: HasDeferred(w, s, l) ==> HasDeferred(v, s, l)
    ensures JobOk(v, j)
  {}

  lemma DisposeInv(w: World)
    requires Inv(w)
    ensures Inv(DisposeStep(w))
  {
    hide Inv, CloseStep, CloseAll, IsClose;
    var flagged := w.(disposed := true);
    AppendedInv(w, flagged);
    CloseAllInv(flagged, w.sessions);
    var (after, closes) := CloseAll(flagged, w.sessions);
    var v := DisposeStep(w);
    forall s | s in w.sessions ensures exists c :: c in closes && IsClose(v, c, s) {
      var c :| c in closes && IsClose(after, c, s);
      CloseStays(after, v, c, s);
    }
    AppendedInv(after, v);
  }

  // ---------------------------------------------------------------- the suspended functions go on

  lemma SweepJob(w: World, v: World, s: SessionId, j: JobId)
    requires s in w.states && j in w.origin && JobOk(w, j)
    requires v.launches == w.launches && v.origin == w.origin && v.handed == w.handed + multiset(w.states[s].jobs)
    requires v.states.Keys == w.states.Keys && v.states[s].jobs == {}
    requires forall other :: other in w.states && other != s ==> v.states[other] == w.states[other]
    requires forall other, l :: other != s && HasDeferred(w, other, l) ==> HasDeferred(v, other, l)
    ensures JobOk(v, j)
  {}

  lemma SweepJobs(w: World, v: World, s: SessionId)
    requires JobsOk(w) && s in w.states
    requires v.launches == w.launches && v.origin == w.origin && v.spoiled == w.spoiled
    requires v.handed == w.handed + multiset(w.states[s].jobs)
    requires v.states.Keys == w.states.Keys && v.states[s].jobs == {}
    requires forall other :: other in w.states && other != s ==> v.states[other] == w.states[other]
    requires forall other, l :: other != s && HasDeferred(w, other, l) ==> HasDeferred(v, other, l)
    ensures JobsOk(v)
  {
    hide JobOk, HasDeferred;
    forall j | j in v.origin && j !in v.spoiled ensures JobOk(v, j) { SweepJob(w, v, s, j); }
  }

  /** `t` became another task; no other cleanup or close came or went. */
  ghost predicate Replaced(w: World, v: World, t: TaskId) {
    t < |w.tasks| && |v.tasks| == |w.tasks| && forall c :: 0 <= c < |w.tasks| && c != t ==> v.tasks[c] == w.tasks[c]
  }

  lemma DeferredElsewhere(w: World, v: World, t: TaskId, s: SessionId, l: LaunchId)
    requires Replaced(w, v, t) && HasDeferred(w, s, l) && w.tasks[t] != Deferred(s, l)
    ensures HasDeferred(v, s, l)
  {
    var c :| 0 <= c < |w.tasks| && w.tasks[c] == Deferred(s, l);
    assert v.tasks[c] == w.tasks[c];
  }

  /** The close has waited out its aborted launches and hands the jobs over. */
  lemma ClosingResumes(w: World, t: TaskId)
    requires Inv(w) && t < |w.tasks| && w.tasks[t].Closing? && ResumeStep(w, t).Some?
    ensures Inv(ResumeStep(w, t).value)
  {
    hide JobOk, TaskOk, JobsOk;
    var s, v := w.tasks[t].session, ResumeStep(w, t).value;
    assert TaskOk(w, t);
    ClosingFacts(w, t);
    forall other, l | HasDeferred(w, other, l) ensures HasDeferred(v, other, l) { DeferredElsewhere(w, v, t, other, l); }
    SweepJobs(w, v, s);
    forall c | 0 <= c < |v.tasks| ensures TaskOk(v, c) {
      assert TaskOk(w, c);
      ClosingResumesTask(w, t, c);
    }
    forall other | other in v.states && v.states[other].closing && !v.states[other].swept ensures HasClosing(v, other) {
      assert HasClosing(w, other) && other != s;
      var c :| 0 <= c < |w.tasks| && w.tasks[c].Closing? && w.tasks[c].session == other;
      assert v.tasks[c] == w.tasks[c];
    }
  }

  lemma ClosingFacts(w: World, t: TaskId)
    requires t < |w.tasks| && TaskOk(w, t) && w.tasks[t].Closing? && AllFinished(w.launches, w.tasks[t].waits)
    ensures w.tasks[t].session in w.states && w.states[w.tasks[t].session].closing
    ensures forall l: LaunchId :: Waiting(w, l, w.tasks[t].session) ==> !w.launches[l].abortable
  {}

  lemma ClosingResumesTask(w: World, t: TaskId, c: TaskId)
    requires t < |w.tasks| && c < |w.tasks| && w.tasks[t].Closing? && ResumeStep(w, t).Some? && TaskOk(w, c) && TaskOk(w, t)
    ensures TaskOk(ResumeStep(w, t).value, c)
  {
    var v := ResumeStep(w, t).value;
    assert forall l: LaunchId, s :: Waiting(v, l, s) == Waiting(w, l, s);
    assert forall d: TaskId :: IsCleanup(v, d) == IsCleanup(w, d);
    assert forall d: TaskId, s :: IsClose(v, d, s) == IsClose(w, d, s);
  }

  /** The launch of a deferred cleanup has finished: its session's jobs are handed over. */
  lemma DeferredResumes(w: World, t: TaskId)
    requires Inv(w) && t < |w.tasks| && w.tasks[t].Deferred? && ResumeStep(w, t).Some?
    ensures Inv(ResumeStep(w, t).value)
  {
    hide JobOk, TaskOk, JobsOk;
    var s, v := w.tasks[t].session, ResumeStep(w, t).value;
    assert Replaced(w, v, t);
    forall other, l | HasDeferred(w, other, l) && Deferred(other, l) != w.tasks[t] ensures HasDeferred(v, other, l) {
      DeferredElsewhere(w, v, t, other, l);
    }
    SweepJobs(w, v, s);
    forall c | 0 <= c < |v.tasks| ensures TaskOk(v, c) {
      assert TaskOk(w, c);
      DeferredResumesTask(w, t, c);
    }
    forall other | other in v.states && v.states[other].closing && !v.states[other].swept ensures HasClosing(v, other) {
      assert HasClosing(w, other);
      var c :| 0 <= c < |w.tasks| && w.tasks[c].Closing? && w.tasks[c].session == other;
      assert v.tasks[c] == w.tasks[c];
    }
  }

  lemma DeferredResumesTask(w: World, t: TaskId, c: TaskId)
    requires t < |w.tasks| && c < |w.tasks| && w.tasks[t].Deferred? && ResumeStep(w, t).Some? && TaskOk(w, c)
    ensures TaskOk(ResumeStep(w, t).value, c)
  {
    var v := ResumeStep(w, t).value;
    assert forall l: LaunchId, s :: Waiting(v, l, s) == Waiting(w, l, s);
    assert forall d: TaskId :: IsCleanup(v, d) == IsCleanup(w, d);
    assert forall d: TaskId, s :: IsClose(v, d, s) == IsClose(w, d, s);
  }

  /** The cancellations have settled: the close drops the session's key. */
  lemma SweepingResumes(w: World, t: TaskId)
    requires Inv(w) && t < |w.tasks| && w.tasks[t].Sweeping?
    ensures Inv(ResumeStep(w, t).value)
  {
    hide JobOk, TaskOk, JobsOk;
    var s, v := w.tasks[t].session, ResumeStep(w, t).value;
    assert TaskOk(w, t);
    SweptFacts(w, t);
    forall other, l | HasDeferred(w, other, l) ensures HasDeferred(v, other, l) { DeferredElsewhere(w, v, t, other, l); }
    SameJobs(w, v);
    forall c | 0 <= c < |v.tasks| ensures TaskOk(v, c) {
      assert TaskOk(w, c);
      SweepingResumesTask(w, t, c);
    }
    forall other | other in v.states && v.states[other].closing && !v.states[other].swept ensures HasClosing(v, other) {
      assert HasClosing(w, other);
      var c :| 0 <= c < |w.tasks| && w.tasks[c].Closing? && w.tasks[c].session == other;
      assert v.tasks[c] == w.tasks[c];
    }
  }

  lemma SweptFacts(w: World, t: TaskId)
    requires t < |w.tasks| && TaskOk(w, t) && w.tasks[t].Sweeping?
    ensures w.tasks[t].session in w.states && w.states[w.tasks[t].session].swept
  {}

  lemma SameJobs(w: World, v: World)
    requires JobsOk(w) && v.launches == w.launches && v.states == w.states
    requires v.handed == w.handed && v.origin == w.origin && v.spoiled == w.spoiled
    requires forall s, l :: HasDeferred(w, s, l) ==> HasDeferred(v, s, l)
    ensures JobsOk(v)
  {
    forall j | j in v.origin && j !in v.spoiled ensures JobOk(v, j) { assert JobOk(w, j); }
  }

  lemma SweepingResumesTask(w: World, t: TaskId, c: TaskId)
    requires t < |w.tasks| && c < |w.tasks| && w.tasks[t].Sweeping? && TaskOk(w, c)
    ensures TaskOk(ResumeStep(w, t).value, c)
  {
    var v := ResumeStep(w, t).value;
    assert forall l: LaunchId, s :: Waiting(v, l, s) == Waiting(w, l, s);
    assert forall d: TaskId :: IsCleanup(v, d) == IsCleanup(w, d);
    assert forall d: TaskId, s :: s in v.sessions && IsClose(w, d, s) ==> IsClose(v, d, s);
    if c != t && w.tasks[c].DisposeClosing? {
      forall s | s in v.sessions ensures exists d :: d in v.tasks[c].closes && IsClose(v, d, s) {
        var d :| d in w.tasks[c].closes && IsClose(w, d, s);
        assert IsClose(v, d, s);
      }
    }
    if w.sessions == [] { assert v.sessions == []; }
  }

  /** The steps of a settled cleanup and of dispose: only the task itself and the cleanup set change. */
  lemma OthersResume(w: World, t: TaskId)
    requires Inv(w) && t < |w.tasks| && ResumeStep(w, t).Some?
    requires w.tasks[t].DeferredSweep? || w.tasks[t].DisposeClosing? || w.tasks[t].DisposeDeferred?
    ensures Inv(ResumeStep(w, t).value)
  {
    hide JobOk, TaskOk, JobsOk;
    var v := ResumeStep(w, t).value;
    forall other, l | HasDeferred(w, other, l) ensures HasDeferred(v, other, l) { DeferredElsewhere(w, v, t, other, l); }
    SameJobs(w, v);
    forall d: TaskId | IsCleanup(w, d) ensures d in w.deferred {
      assert TaskOk(w, d);
      CleanupListed(w, d);
    }
    forall c | 0 <= c < |v.tasks| ensures TaskOk(v, c) {
      assert TaskOk(w, c) && TaskOk(w, t);
      OthersResumeTask(w, t, c);
    }
    forall other | other in v.states && v.states[other].closing && !v.states[other].swept ensures HasClosing(v, other) {
      assert HasClosing(w, other);
      var c :| 0 <= c < |w.tasks| && w.tasks[c].Closing? && w.tasks[c].session == other;
      assert v.tasks[c] == w.tasks[c];
    }
  }

  lemma CleanupListed(w: World, d: TaskId)
    requires IsCleanup(w, d) && TaskOk(w, d)
    ensures d in w.deferred
  {}

  lemma OthersResumeTask(w: World, t: TaskId, c: TaskId)
    requires t < |w.tasks| && c < |w.tasks| && ResumeStep(w, t).Some? && TaskOk(w, c) && TaskOk(w, t)
    requires w.tasks[t].DeferredSweep? || w.tasks[t].DisposeClosing? || w.tasks[t].DisposeDeferred?
    requires forall d: TaskId :: IsCleanup(w, d) ==> d in w.deferred
    ensures TaskOk(ResumeStep(w, t).value, c)
  {
    var v := ResumeStep(w, t).value;
    assert forall l: LaunchId, s :: Waiting(v, l, s) == Waiting(w, l, s);
    assert forall d: TaskId :: IsCleanup(v, d) == (IsCleanup(w, d) && d != t);
    assert forall d: TaskId, s :: IsClose(v, d, s) == IsClose(w, d, s);
    assert w.sessions != [] ==> w.sessions[0] in w.sessions;
  }

  // ---------------------------------------------------------------- every run

  lemma ResumeInv(w: World, t: TaskId)
    requires Inv(w) && t < |w.tasks| && ResumeStep(w, t).Some?
    ensures Inv(ResumeStep(w, t).value)
  {
    hide Inv;
    var task := w.tasks[t];
    if task.Closing? { ClosingResumes(w, t); }
    else if task.Sweeping? { SweepingResumes(w, t); }
    else if task.Deferred? { DeferredResumes(w, t); }
    else { OthersResume(w, t); }
  }

  lemma StepInv(w: World, a: Action)
    requires Inv(w) && Step(w, a).Some?
    ensures Inv(Step(w, a).value)
  {
    hide Inv, BeginStep, TrackStep, FinishStep, CloseStep, DisposeStep, ResumeStep;
    match a
    case Begin(session, abortable) => BeginInv(w, session, abortable);
    case Track(launch, job) => TrackInv(w, launch, job);
    case Finish(launch) => FinishInv(w, launch);
    case Close(session) => CloseInv(w, session);
    case Dispose => DisposeInv(w);
    case Resume(t) => ResumeInv(w, t);
  }

  /** Any schedule of calls and resumptions, from an empty registry. */
  ghost predicate IsRun(worlds: seq<World>, actions: seq<Action>) {
    && |worlds| == |actions| + 1 && worlds[0] == EMPTY
    && forall i :: 0 <= i < |actions| ==> Step(worlds[i], actions[i]) == Some(worlds[i + 1])
  }

  lemma {:induction false} RunInv(worlds: seq<World>, actions: seq<Action>, k: nat)
    requires IsRun(worlds, actions) && k < |worlds|
    ensures Inv(worlds[k])
  {
    hide Inv, Step;
    if k == 0 {
      EmptyInv();
    } else {
      RunInv(worlds, actions, k - 1);
      assert Step(worlds[k - 1], actions[k - 1]) == Some(worlds[k - 1 + 1]);
      StepInv(worlds[k - 1], actions[k - 1]);
    }
  }

  /** A job tracked once, before its launch finished. */
  predicate TrackedOnce(w: World, j: JobId) { j in w.origin && j !in w.spoiled }

  predicate SessionOf(w: World, j: JobId, s: SessionId)
    requires j in w.origin
  {
    w.origin[j] < |w.launches| && w.launches[w.origin[j]].session == s
  }

  /** In every run, a job tracked once and in time is never handed to `cancelJob` twice, and once no close
      and no cleanup of its closed session is still waiting, it was handed over exactly once. */
  lemma HandedExactlyOnce(worlds: seq<World>, actions: seq<Action>, k: nat, j: JobId, s: SessionId)
    requires IsRun(worlds, actions) && k < |worlds| && TrackedOnce(worlds[k], j) && SessionOf(worlds[k], j, s)
    ensures worlds[k].handed[j] <= 1
    ensures s in worlds[k].closed && !HasClosing(worlds[k], s) && (forall l :: !HasDeferred(worlds[k], s, l)) ==>
      worlds[k].handed[j] == 1
  {
    RunInv(worlds, actions, k);
    var w := worlds[k];
    assert JobOk(w, j);
    assert s in w.states ==> (w.states[s].closing && !w.states[s].swept ==> HasClosing(w, s));
  }

  /** Nothing waits in vain: when the launches of a session have finished, its waiting closes and cleanups can go on. */
  lemma WaitingEnds(w: World, t: TaskId)
    requires Inv(w) && t < |w.tasks|
    requires w.tasks[t].Closing? || w.tasks[t].Deferred?
    requires var waits := if w.tasks[t].Closing? then w.tasks[t].waits else {w.tasks[t].launch};
      AllFinished(w.launches, waits)
    ensures ResumeStep(w, t).Some?
    ensures var v := ResumeStep(w, t).value; !v.tasks[t].Closing? && !v.tasks[t].Deferred? && |v.tasks| == |w.tasks|
  {
    assert TaskOk(w, t);
    assert w.tasks[t].Deferred? ==> IsLaunchOf(w, w.tasks[t].launch, w.tasks[t].session);
  }

  /** Every launch of the session has finished. */
  predicate Quiet(w: World, s: SessionId) {
    forall l: LaunchId :: l < |w.launches| && w.launches[l].session == s ==> w.launches[l].finished
  }

  predicate WaitsFor(task: Task, s: SessionId) { (task.Closing? || task.Deferred?) && task.session == s }

  /** Every close and cleanup of the session among the first `n` tasks that waits goes on, one after the other. */
  function Drain(w: World, s: SessionId, n: nat): World {
    if n == 0 then w
    else
      var v := Drain(w, s, n - 1);
      if n - 1 < |v.tasks| && WaitsFor(v.tasks[n - 1], s) && ResumeStep(v, n - 1).Some?
      then ResumeStep(v, n - 1).value else v
  }

  ghost predicate DrainedTo(w: World, v: World, s: SessionId, n: nat) {
    && v.launches == w.launches && v.origin == w.origin && v.spoiled == w.spoiled && v.closed == w.closed
    && |v.tasks| == |w.tasks|
    && forall t :: 0 <= t < n && t < |v.tasks| ==> !WaitsFor(v.tasks[t], s)
  }

  lemma {:induction false} DrainEnds(w: World, s: SessionId, n: nat)
    requires Inv(w) && Quiet(w, s)
    ensures Inv(Drain(w, s, n)) && DrainedTo(w, Drain(w, s, n), s, n)
  {
    hide Inv, ResumeStep;
    if n > 0 {
      DrainEnds(w, s, n - 1);
      var v := Drain(w, s, n - 1);
      if n - 1 < |v.tasks| && WaitsFor(v.tasks[n - 1], s) {
        WaitsAreLaunches(v, n - 1);
        WaitingEnds(v, n - 1);
        ResumeInv(v, n - 1);
        ResumeKeeps(v, n - 1);
      }
    }
  }

  /** A close or cleanup waits for launches of its own session only. */
  lemma WaitsAreLaunches(w: World, t: TaskId)
    requires Inv(w) && t < |w.tasks|
    ensures w.tasks[t].Closing? ==> forall l: LaunchId :: l in w.tasks[t].waits ==> IsLaunchOf(w, l, w.tasks[t].session)
    ensures w.tasks[t].Deferred? ==> IsLaunchOf(w, w.tasks[t].launch, w.tasks[t].session)
  {
    assert TaskOk(w, t);
  }

  lemma ResumeKeeps(w: World, t: TaskId)
    requires t < |w.tasks| && ResumeStep(w, t).Some?
    ensures var v := ResumeStep(w, t).value;
      && v.launches == w.launches && v.origin == w.origin && v.spoiled == w.spoiled && v.closed == w.closed
      && Replaced(w, v, t)
  {}

  /** Once its own launches have finished, a closed session needs nothing more from outside, whatever is still
      pending in other sessions: letting its waiting functions go on hands every job over, exactly once. */
  lemma ClosedSessionsDrain(worlds: seq<World>, actions: seq<Action>, k: nat, j: JobId, s: SessionId)
    requires IsRun(worlds, actions) && k < |worlds| && TrackedOnce(worlds[k], j) && SessionOf(worlds[k], j, s)
    requires s in worlds[k].closed && Quiet(worlds[k], s)
    ensures Drain(worlds[k], s, |worlds[k].tasks|).handed[j] == 1
  {
    RunInv(worlds, actions, k);
    var w := worlds[k];
    DrainEnds(w, s, |w.tasks|);
    var v := Drain(w, s, |w.tasks|);
    assert JobOk(v, j);
    assert v.states[s].closing && !v.states[s].swept ==> HasClosing(v, s);
    assert !HasClosing(v, s) && !HasDeferred(v, s, v.origin[j]) by {
      assert forall t :: 0 <= t < |v.tasks| ==> !WaitsFor(v.tasks[t], s);
    }
  }

  /** When `dispose` resolves, every launch has finished and every job tracked once, before its launch
      finished, was handed over exactly once. */
  lemma DisposeResolvesLast(worlds: seq<World>, actions: seq<Action>, k: nat, t: TaskId)
    requires IsRun(worlds, actions) && k < |worlds| && t < |worlds[k].tasks| && worlds[k].tasks[t].Disposed?
    ensures forall l :: 0 <= l < |worlds[k].launches| ==> worlds[k].launches[l].finished
    ensures forall j :: TrackedOnce(worlds[k], j) ==> worlds[k].handed[j] == 1
  {
    RunInv(worlds, actions, k);
    var w := worlds[k];
    NothingLeft(w, t);
  }

  lemma NothingLeft(w: World, t: TaskId)
    requires Inv(w) && t < |w.tasks| && w.tasks[t].Disposed?
    ensures forall l :: 0 <= l < |w.launches| ==> w.launches[l].finished
    ensures forall j :: TrackedOnce(w, j) ==> w.handed[j] == 1
  {
    assert TaskOk(w, t);
    forall s, l: LaunchId ensures !HasDeferred(w, s, l) {
      if HasDeferred(w, s, l) {
        var c :| 0 <= c < |w.tasks| && w.tasks[c] == Deferred(s, l);
        assert IsCleanup(w, c);
      }
    }
    forall l | 0 <= l < |w.launches| ensures w.launches[l].finished {
      assert w.launches[l].session in w.states;
    }
    forall j | TrackedOnce(w, j) ensures w.handed[j] == 1 {
      assert JobOk(w, j);
    }
  }

  /** Between two worlds no launch of the session began, and the session is closed in the later one. */
  ghost predicate NoneSince(w: World, v: World, s: SessionId) {
    && s in v.closed && |w.launches| <= |v.launches|
    && forall l :: |w.launches| <= l < |v.launches| ==> v.launches[l].session != s
  }

  lemma NoneInStep(from: World, w: World, a: Action, s: SessionId)
    requires NoneSince(from, w, s) && Inv(w) && Step(w, a).Some?
    ensures NoneSince(from, Step(w, a).value, s)
  {
    hide Inv, Step;
    LaunchesGrow(w, a, s);
  }

  /** A closed session stays closed: no launch of it ever begins again. */
  lemma {:induction false} NoLaunchAfterClose(worlds: seq<World>, actions: seq<Action>, i: nat, k: nat, s: SessionId)
    requires IsRun(worlds, actions) && i <= k < |worlds| && s in worlds[i].closed
    ensures NoneSince(worlds[i], worlds[k], s)
    decreases k
  {
    if i < k {
      hide Inv, Step, NoneSince;
      NoLaunchAfterClose(worlds, actions, i, k - 1, s);
      assert Step(worlds[k - 1], actions[k - 1]) == Some(worlds[k - 1 + 1]);
      RunInv(worlds, actions, k - 1);
      NoneInStep(worlds[i], worlds[k - 1], actions[k - 1], s);
    }
  }

  lemma LaunchesGrow(w: World, a: Action, s: SessionId)
    requires Inv(w) && Step(w, a).Some?
    ensures var v := Step(w, a).value;
      && w.closed <= v.closed && |w.launches| <= |v.launches|
      && (forall l :: 0 <= l < |w.launches| ==> v.launches[l].session == w.launches[l].session)
      && (forall l :: |w.launches| <= l < |v.launches| ==>
            a.Begin? && v.launches[l].session == a.session && a.session !in w.closed && !w.disposed)
  {
    hide Inv, CloseStep, CloseAll;
    if a.Close? { CloseKeepsLaunches(w, a.session); }
    if a.Dispose? {
      AppendedInv(w, w.(disposed := true));
      ListedAll(w);
      CloseAllKeepsLaunches(w.(disposed := true), w.sessions);
    }
  }

  lemma ListedAll(w: World)
    ensures forall s :: s in w.sessions ==> s in w.(disposed := true).sessions
  {}

  lemma CloseKeepsLaunches(w: World, session: SessionId)
    requires Inv(w)
    ensures var v := CloseStep(w, session);
      && w.closed <= v.closed && |v.launches| == |w.launches|
      && forall l :: 0 <= l < |w.launches| ==> v.launches[l].session == w.launches[l].session
  {
    hide Inv;
    if Known(w, session) { CloseKnown(w, session); }
  }

  lemma {:induction false} CloseAllKeepsLaunches(w: World, sessions: seq<SessionId>)
    requires Inv(w) && forall s :: s in sessions ==> s in w.sessions
    ensures var (v, _) := CloseAll(w, sessions);
      && w.closed <= v.closed && |v.launches| == |w.launches|
      && forall l :: 0 <= l < |w.launches| ==> v.launches[l].session == w.launches[l].session
    decreases |sessions|
  {
    hide Inv, CloseStep;
    if sessions != [] {
      var init := sessions[..|sessions| - 1];
      assert sessions == init + [sessions[|sessions| - 1]];
      CloseAllKeepsLaunches(w, init);
      CloseAllInv(w, init);
      CloseKeepsLaunches(CloseAll(w, init).0, sessions[|sessions| - 1]);
    }
  }
}
