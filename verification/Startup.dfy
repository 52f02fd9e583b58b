/** The start handshake: manager, bootstrap and detached runner exchange frames over four pipes, and the
    runner publishes its staged directory by one rename. Any process may die, any wait may time out, any
    write may fail after or before it was delivered. */
module Startup {
  import opened JobState

  type JobId = string

  datatype Frame = StartFrame(id: JobId) | PreparedFrame | CommitFrame | CommittedFrame(id: JobId) | FailureFrame

  /** `closed` speaks of the writing end. */
  datatype Pipe = Pipe(frames: seq<Frame>, closed: bool)

  datatype Manager =
    | SendStart | AwaitPrepared | Decide | Committing | AwaitCommitted | Recover
    | Returned(id: JobId) | Failed | Aborting | Aborted | ManagerGone

  datatype Bootstrap =
    | ReadStart | Launch(id: JobId) | AwaitRunner | Offer | AwaitCommit | Relay | AwaitDone
    | Stopping | Failing | BootstrapEnded

  datatype Runner =
    | NotStarted | ReadRequest | Prepare(id: JobId) | Announce(id: JobId) | AwaitOrder(id: JobId)
    | Publish(id: JobId) | Confirm(id: JobId) | Supervise | Abort | RunnerEnded | RunnerGone

  /** `staged`: the `.starting-` directory is there. History: whether the manager began to send the commit
      frame, and under which id the job was published. */
  datatype World = World(
    request: JobId, manager: Manager, bootstrap: Bootstrap, runner: Runner,
    toBootstrap: Pipe, toRunner: Pipe, fromRunner: Pipe, toManager: Pipe,
    staged: bool, visible: bool, committing: bool, published: Option<JobId>)

  /** `good`: no timeout, cancellation or error at this step; `delivered`: a failing write had gone out. */
  datatype Action =
    | ManagerStep(good: bool, delivered: bool)
    | BootstrapStep(good: bool, delivered: bool)
    | RunnerStep(good: bool, delivered: bool)
    | ManagerDies | BootstrapDies | RunnerDies
    | Removed

  function Send(p: Pipe, f: Frame): Pipe { p.(frames := p.frames + [f]) }

  function SendIf(p: Pipe, f: Frame, delivered: bool): Pipe { if delivered then Send(p, f) else p }

  function Shut(p: Pipe): Pipe { p.(closed := true) }

  /** A read: a frame, the end of the stream, or nothing yet. */
  datatype Read = Got(frame: Frame, rest: Pipe) | End | Nothing

  function ReadFrom(p: Pipe): Read {
    if p.frames != [] then Got(p.frames[0], p.(frames := p.frames[1..])) else if p.closed then End else Nothing
  }

  // ---------------------------------------------------------------- the manager

  /** `abortBeforeCommit`: the input is closed, then the bootstrap is awaited or killed. */
  function ManagerAborts(w: World): World { w.(manager := Aborting, toBootstrap := Shut(w.toBootstrap)) }

  function ManagerMove(w: World, good: bool, delivered: bool): Option<World> {
    match w.manager
    case SendStart =>
      Some(if good then w.(manager := AwaitPrepared, toBootstrap := Send(w.toBootstrap, StartFrame(w.request)))
           else ManagerAborts(w.(toBootstrap := SendIf(w.toBootstrap, StartFrame(w.request), delivered))))
    case AwaitPrepared =>
      var read := ReadFrom(w.toManager);
      if !good || read.End? then Some(ManagerAborts(w))
      else if read.Nothing? then None
      else
        var v := w.(toManager := read.rest);
        Some(if read.frame.PreparedFrame? then v.(manager := Decide) else ManagerAborts(v))
    case Decide => Some(if good then w.(manager := Committing, committing := true) else ManagerAborts(w))
    case Committing =>
      Some(if good then w.(manager := AwaitCommitted, toBootstrap := Shut(Send(w.toBootstrap, CommitFrame)))
           else w.(manager := Recover, toBootstrap := Shut(SendIf(w.toBootstrap, CommitFrame, delivered))))
    case AwaitCommitted =>
      var read := ReadFrom(w.toManager);
      if !good || read.End? then Some(w.(manager := Recover))
      else if read.Nothing? then None
      else Some(w.(toManager := read.rest, manager := if read.frame.CommittedFrame? then Returned(read.frame.id) else Recover))
    case Recover =>
      // poll the store for the requested id until the deadline
      Some(if !good then w.(manager := Failed)
           else if w.visible && w.published.Some? then w.(manager := Returned(w.published.value)) else w)
    case Aborting =>
      if w.bootstrap.BootstrapEnded? then Some(w.(manager := Aborted))
      else if good then None else Some(BootstrapEnds(w).(manager := Aborted))
    case _ => None
  }

  // ---------------------------------------------------------------- the bootstrap

  function BootstrapEnds(w: World): World {
    w.(bootstrap := BootstrapEnded, toRunner := Shut(w.toRunner), toManager := Shut(w.toManager))
  }

  /** `stopRunner` begins by closing the runner's input. */
  function BootstrapStops(w: World): World { w.(bootstrap := Stopping, toRunner := Shut(w.toRunner)) }

  /** The positions where it waits for a frame: of the manager, or of the runner. */
  predicate Reads(b: Bootstrap) { b.ReadStart? || b.AwaitRunner? || b.AwaitCommit? || b.AwaitDone? }

  /** A start that cannot be read is answered at once; later failures stop the runner first. */
  function BootstrapRejects(w: World): World {
    if w.bootstrap.ReadStart? then w.(bootstrap := Failing) else BootstrapStops(w)
  }

  function BootstrapReceives(w: World, f: Frame): World
    requires Reads(w.bootstrap)
  {
    match w.bootstrap
    case ReadStart => if f.StartFrame? then w.(bootstrap := Launch(f.id)) else BootstrapRejects(w)
    case AwaitRunner => if f.PreparedFrame? then w.(bootstrap := Offer) else BootstrapRejects(w)
    case AwaitCommit => if f.CommitFrame? then w.(bootstrap := Relay) else BootstrapRejects(w)
    case AwaitDone => if f.CommittedFrame? then BootstrapEnds(w.(toManager := Send(w.toManager, f))) else BootstrapRejects(w)
  }

  function BootstrapReads(w: World, good: bool): Option<World>
    requires Reads(w.bootstrap)
  {
    var manager := w.bootstrap.ReadStart? || w.bootstrap.AwaitCommit?;
    var read := ReadFrom(if manager then w.toBootstrap else w.fromRunner);
    if !good || read.End? then Some(BootstrapRejects(w))
    else if read.Nothing? then None
    else Some(BootstrapReceives(if manager then w.(toBootstrap := read.rest) else w.(fromRunner := read.rest), read.frame))
  }

  function BootstrapWrites(w: World, good: bool, delivered: bool): Option<World>
    requires !Reads(w.bootstrap)
  {
    match w.bootstrap
    case Launch(id) =>
      var v := w.(runner := if w.runner.NotStarted? then ReadRequest else w.runner);
      Some(if good then v.(bootstrap := AwaitRunner, toRunner := Send(w.toRunner, StartFrame(id)))
           else BootstrapStops(v.(toRunner := SendIf(w.toRunner, StartFrame(id), delivered))))
    case Offer =>
      Some(if good then w.(bootstrap := AwaitCommit, toManager := Send(w.toManager, PreparedFrame))
           else BootstrapStops(w.(toManager := SendIf(w.toManager, PreparedFrame, delivered))))
    case Relay =>
      Some(if good then w.(bootstrap := AwaitDone, toRunner := Send(w.toRunner, CommitFrame))
           else BootstrapStops(w.(toRunner := SendIf(w.toRunner, CommitFrame, delivered))))
    case Stopping =>
      if w.runner.NotStarted? || w.runner.RunnerEnded? || w.runner.RunnerGone? then Some(w.(bootstrap := Failing))
      else if good then None
      else Some(w.(bootstrap := Failing, runner := RunnerGone, fromRunner := Shut(w.fromRunner)))
    case Failing => Some(BootstrapEnds(w.(toManager := SendIf(w.toManager, FailureFrame, good || delivered))))
    case BootstrapEnded => None
  }

  function BootstrapMove(w: World, good: bool, delivered: bool): Option<World> {
    if Reads(w.bootstrap) then BootstrapReads(w, good) else BootstrapWrites(w, good, delivered)
  }

  // ---------------------------------------------------------------- the runner

  function RunnerEnds(w: World): World { w.(runner := RunnerEnded, fromRunner := Shut(w.fromRunner)) }

  function RunnerMove(w: World, good: bool, delivered: bool): Option<World> {
    match w.runner
    case ReadRequest =>
      var read := ReadFrom(w.toRunner);
      if read.End? then Some(RunnerEnds(w))
      else if read.Nothing? then None
      else
        var v := w.(toRunner := read.rest);
        Some(if good && read.frame.StartFrame? then v.(runner := Prepare(read.frame.id)) else RunnerEnds(v))
    case Prepare(id) => Some(if good then w.(runner := Announce(id), staged := true) else RunnerEnds(w))
    case Announce(id) =>
      Some(if good then w.(runner := AwaitOrder(id), fromRunner := Send(w.fromRunner, PreparedFrame))
           else w.(runner := Abort, fromRunner := SendIf(w.fromRunner, PreparedFrame, delivered)))
    case AwaitOrder(id) =>
      var read := ReadFrom(w.toRunner);
      if !good || read.End? then Some(w.(runner := Abort))
      else if read.Nothing? then None
      else
        var v := w.(toRunner := read.rest);
        Some(v.(runner := if read.frame.CommitFrame? then Publish(id) else Abort))
    case Publish(id) =>
      Some(if good then w.(runner := Confirm(id), staged := false, visible := true, published := Some(id))
           else w.(runner := Abort))
    case Confirm(id) => Some(w.(runner := Supervise, fromRunner := SendIf(w.fromRunner, CommittedFrame(id), good || delivered)))
    case Supervise => Some(RunnerEnds(w))
    case Abort => Some(RunnerEnds(w.(staged := false)))
    case _ => None
  }

  function Step(w: World, a: Action): Option<World> {
    match a
    case ManagerStep(good, delivered) => ManagerMove(w, good, delivered)
    case BootstrapStep(good, delivered) => BootstrapMove(w, good, delivered)
    case RunnerStep(good, delivered) => RunnerMove(w, good, delivered)
    case ManagerDies => Some(w.(manager := ManagerGone, toBootstrap := Shut(w.toBootstrap)))
    case BootstrapDies => Some(BootstrapEnds(w))
    case RunnerDies =>
      if w.runner.NotStarted? then None else Some(w.(runner := RunnerGone, fromRunner := Shut(w.fromRunner)))
    case Removed => Some(w.(visible := false))
  }

  function InitialWorld(request: JobId): World {
    var empty := Pipe([], false);
    World(request, SendStart, ReadStart, NotStarted, empty, empty, empty, empty, false, false, false, None)
  }

  // ---------------------------------------------------------------- the invariant

  /** A frame in a pipe vouches for what its sender knew. */
  predicate Vouched(w: World, f: Frame) {
    match f
    case StartFrame(id) => id == w.request
    case CommitFrame => w.committing
    case CommittedFrame(id) => id == w.request && w.published == Some(w.request)
    case _ => true
  }

  predicate PipeOk(w: World, p: Pipe) { forall f :: f in p.frames ==> Vouched(w, f) }

  /** All four pipes of `v`, judged by what is known in `w`. */
  predicate PipesOk(w: World, v: World) {
    PipeOk(w, v.toBootstrap) && PipeOk(w, v.toRunner) && PipeOk(w, v.fromRunner) && PipeOk(w, v.toManager)
  }

  /** What is known only grows. */
  predicate Knows(w: World, v: World) {
    && v.request == w.request && (w.committing ==> v.committing) && (w.published.Some? ==> v.published == w.published)
  }

  lemma PipesKeep(w: World, v: World)
    requires PipesOk(w, v) && Knows(w, v)
    ensures PipesOk(v, v)
  {}

  lemma PipeSend(w: World, p: Pipe, f: Frame, delivered: bool)
    requires PipeOk(w, p) && Vouched(w, f)
    ensures PipeOk(w, Send(p, f)) && PipeOk(w, SendIf(p, f, delivered))
  {}

  lemma PipeShut(w: World, p: Pipe)
    ensures PipeOk(w, Shut(p)) == PipeOk(w, p)
  {}

  lemma PipeRead(w: World, p: Pipe)
    requires PipeOk(w, p)
    ensures ReadFrom(p).Got? ==> Vouched(w, ReadFrom(p).frame) && PipeOk(w, ReadFrom(p).rest)
  {}

  predicate ManagerOk(w: World) {
    match w.manager
    case SendStart | AwaitPrepared | Decide | Aborting | Aborted => !w.committing
    case Committing | AwaitCommitted | Recover | Failed => w.committing
    case Returned(id) => w.committing && id == w.request && w.published == Some(w.request)
    case ManagerGone => true
  }

  predicate BootstrapOk(w: World) {
    && (w.bootstrap.Launch? ==> w.bootstrap.id == w.request)
    && (w.bootstrap.Relay? || w.bootstrap.AwaitDone? ==> w.committing)
  }

  predicate RunnerOk(w: World) {
    match w.runner
    case NotStarted | ReadRequest | RunnerEnded => !w.staged
    case Prepare(id) => id == w.request && !w.staged && w.published == None
    case Announce(id) => id == w.request && w.staged
    case AwaitOrder(id) => id == w.request && w.staged
    case Publish(id) => id == w.request && w.staged && w.committing
    case Confirm(id) => id == w.request && !w.staged && w.published == Some(id)
    case Supervise => !w.staged
    case Abort => w.staged
    case RunnerGone => true
  }

  predicate Inv(w: World) {
    && PipesOk(w, w) && ManagerOk(w) && BootstrapOk(w) && RunnerOk(w)
    && (w.published.Some? ==> w.committing && w.published == Some(w.request) && !w.staged)
    && (w.visible ==> w.published.Some?)
    && (w.runner.NotStarted? || w.runner.ReadRequest? ==> w.published == None)
  }

  lemma StepInv(w: World, a: Action)
    requires Inv(w) && Step(w, a).Some?
    ensures Inv(Step(w, a).value)
  {
    hide ManagerMove, BootstrapMove, RunnerMove;
    if a.ManagerStep? { ManagerInv(w, a.good, a.delivered); }
    else if a.BootstrapStep? { BootstrapInv(w, a.good, a.delivered); }
    else if a.RunnerStep? { RunnerInv(w, a.good, a.delivered); }
  }

  lemma ManagerInv(w: World, good: bool, delivered: bool)
    requires Inv(w) && ManagerMove(w, good, delivered).Some?
    ensures Inv(ManagerMove(w, good, delivered).value)
  {
    hide PipeOk, Send, SendIf, Shut, ReadFrom;
    var v := ManagerMove(w, good, delivered).value;
    PipeRead(w, w.toManager);
    PipeSend(w, w.toBootstrap, StartFrame(w.request), delivered);
    if w.manager.Committing? { PipeSend(w, w.toBootstrap, CommitFrame, delivered); }
    forall p ensures PipeOk(w, Shut(p)) == PipeOk(w, p) { PipeShut(w, p); }
    PipesKeep(w, v);
  }

  lemma BootstrapInv(w: World, good: bool, delivered: bool)
    requires Inv(w) && BootstrapMove(w, good, delivered).Some?
    ensures Inv(BootstrapMove(w, good, delivered).value)
  {
    hide BootstrapReads, BootstrapWrites, Inv;
    if Reads(w.bootstrap) { BootstrapReadsInv(w, good); } else { BootstrapWritesInv(w, good, delivered); }
  }

  lemma BootstrapReadsInv(w: World, good: bool)
    requires Inv(w) && Reads(w.bootstrap) && BootstrapReads(w, good).Some?
    ensures Inv(BootstrapReads(w, good).value)
  {
    hide PipeOk, Send, SendIf, Shut, ReadFrom, RunnerOk, ManagerOk, Vouched;
    var v := BootstrapReads(w, good).value;
    forall p ensures PipeOk(w, Shut(p)) == PipeOk(w, p) { PipeShut(w, p); }
    PipeRead(w, w.toBootstrap);
    PipeRead(w, w.fromRunner);
    FramesSay(w);
    var read := ReadFrom(w.fromRunner);
    if read.Got? { PipeSend(w, w.toManager, read.frame, false); }
    PipesKeep(w, v);
    OthersStand(w, v);
  }

  lemma FramesSay(w: World)
    ensures forall f :: Vouched(w, f) ==> (f.StartFrame? ==> f.id == w.request) && (f.CommitFrame? ==> w.committing)
  {}

  /** What a read of the bootstrap leaves alone. */
  lemma OthersStand(w: World, v: World)
    requires v.manager == w.manager && v.runner == w.runner && v.request == w.request
    requires v.staged == w.staged && v.committing == w.committing && v.published == w.published
    ensures RunnerOk(v) == RunnerOk(w) && ManagerOk(v) == ManagerOk(w)
  {}

  lemma BootstrapWritesInv(w: World, good: bool, delivered: bool)
    requires Inv(w) && !Reads(w.bootstrap) && BootstrapWrites(w, good, delivered).Some?
    ensures Inv(BootstrapWrites(w, good, delivered).value)
  {
    hide PipeOk, Send, SendIf, Shut, ReadFrom, ManagerOk;
    var v := BootstrapWrites(w, good, delivered).value;
    forall p ensures PipeOk(w, Shut(p)) == PipeOk(w, p) { PipeShut(w, p); }
    if w.bootstrap.Launch? { PipeSend(w, w.toRunner, StartFrame(w.bootstrap.id), delivered); }
    else if w.bootstrap.Offer? { PipeSend(w, w.toManager, PreparedFrame, delivered); }
    else if w.bootstrap.Relay? { PipeSend(w, w.toRunner, CommitFrame, delivered); }
    else { PipeSend(w, w.toManager, FailureFrame, good || delivered); }
    PipesKeep(w, v);
    ManagerStands(w, v);
  }

  lemma ManagerStands(w: World, v: World)
    requires v.manager == w.manager && v.request == w.request && v.committing == w.committing && v.published == w.published
    ensures ManagerOk(v) == ManagerOk(w)
  {}

  lemma RunnerInv(w: World, good: bool, delivered: bool)
    requires Inv(w) && RunnerMove(w, good, delivered).Some?
    ensures Inv(RunnerMove(w, good, delivered).value)
  {
    hide PipeOk, Send, SendIf, Shut, ReadFrom;
    var v := RunnerMove(w, good, delivered).value;
    forall p ensures PipeOk(w, Shut(p)) == PipeOk(w, p) { PipeShut(w, p); }
    PipeRead(w, w.toRunner);
    PipeSend(w, w.fromRunner, PreparedFrame, delivered);
    if w.runner.Confirm? { PipeSend(w, w.fromRunner, CommittedFrame(w.runner.id), good || delivered); }
    PipesKeep(w, v);
  }

  // ---------------------------------------------------------------- every run

  ghost predicate IsRun(request: JobId, worlds: seq<World>, actions: seq<Action>) {
    && |worlds| == |actions| + 1 && worlds[0] == InitialWorld(request)
    && forall i :: 0 <= i < |actions| ==> Step(worlds[i], actions[i]) == Some(worlds[i + 1])
  }

  lemma {:induction false} RunInv(request: JobId, worlds: seq<World>, actions: seq<Action>, k: nat)
    requires IsRun(request, worlds, actions) && k < |worlds|
    ensures Inv(worlds[k]) && worlds[k].request == request
  {
    if k > 0 {
      hide Inv, Step;
      RunInv(request, worlds, actions, k - 1);
      assert Step(worlds[k - 1], actions[k - 1]) == Some(worlds[k - 1 + 1]);
      StepInv(worlds[k - 1], actions[k - 1]);
      StepKnows(worlds[k - 1], actions[k - 1]);
    }
  }

  /** The manager that has given up before its commit, or died there, cannot commit later. */
  predicate GaveUp(w: World) { !w.committing && (w.manager.Aborting? || w.manager.Aborted? || w.manager.ManagerGone?) }

  lemma StepKnows(w: World, a: Action)
    requires Step(w, a).Some?
    ensures Step(w, a).value.request == w.request && (w.committing ==> Step(w, a).value.committing)
    ensures GaveUp(w) ==> GaveUp(Step(w, a).value)
  {
    hide ManagerMove, BootstrapMove, RunnerMove;
    if a.ManagerStep? { ManagerKnows(w, a.good, a.delivered); }
    else if a.BootstrapStep? { BootstrapKnows(w, a.good, a.delivered); }
    else if a.RunnerStep? { RunnerKnows(w, a.good, a.delivered); }
  }

  lemma ManagerKnows(w: World, good: bool, delivered: bool)
    requires ManagerMove(w, good, delivered).Some?
    ensures var v := ManagerMove(w, good, delivered).value;
      v.request == w.request && (w.committing ==> v.committing) && (GaveUp(w) ==> GaveUp(v))
  {
    hide ReadFrom, Send, SendIf, Shut;
  }

  predicate BootstrapLeaves(w: World, v: World) {
    v.request == w.request && v.committing == w.committing && v.manager == w.manager
  }

  lemma BootstrapKnows(w: World, good: bool, delivered: bool)
    requires BootstrapMove(w, good, delivered).Some?
    ensures BootstrapLeaves(w, BootstrapMove(w, good, delivered).value)
  {
    hide BootstrapReads, BootstrapWrites;
    if Reads(w.bootstrap) { ReadsLeave(w, good); } else { WritesLeave(w, good, delivered); }
  }

  lemma ReadsLeave(w: World, good: bool)
    requires Reads(w.bootstrap) && BootstrapReads(w, good).Some?
    ensures BootstrapLeaves(w, BootstrapReads(w, good).value)
  {
    hide ReadFrom, Send, SendIf, Shut;
  }

  lemma WritesLeave(w: World, good: bool, delivered: bool)
    requires !Reads(w.bootstrap) && BootstrapWrites(w, good, delivered).Some?
    ensures BootstrapLeaves(w, BootstrapWrites(w, good, delivered).value)
  {
    hide ReadFrom, Send, SendIf, Shut;
  }

  lemma RunnerKnows(w: World, good: bool, delivered: bool)
    requires RunnerMove(w, good, delivered).Some?
    ensures var v := RunnerMove(w, good, delivered).value;
      v.request == w.request && v.committing == w.committing && v.manager == w.manager
  {
    hide ReadFrom, Send, SendIf, Shut;
  }

  /** A job becomes visible only after the manager began to send the commit frame, and only under the
      requested id. */
  lemma VisibleOnlyAfterCommitBegan(request: JobId, worlds: seq<World>, actions: seq<Action>, k: nat)
    requires IsRun(request, worlds, actions) && k < |worlds| && (worlds[k].visible || worlds[k].published.Some?)
    ensures worlds[k].committing && worlds[k].published == Some(request)
  {
    RunInv(request, worlds, actions, k);
  }

  /** Returned metadata means the job was published, under the requested id. */
  lemma ReturnedMeansPublished(request: JobId, worlds: seq<World>, actions: seq<Action>, k: nat)
    requires IsRun(request, worlds, actions) && k < |worlds| && worlds[k].manager.Returned?
    ensures worlds[k].manager.id == request && worlds[k].published == Some(request)
  {
    RunInv(request, worlds, actions, k);
  }

  lemma {:induction false} GaveUpStays(request: JobId, worlds: seq<World>, actions: seq<Action>, i: nat, k: nat)
    requires IsRun(request, worlds, actions) && i <= k < |worlds| && GaveUp(worlds[i])
    ensures GaveUp(worlds[k])
    decreases k
  {
    if i < k {
      hide Step, GaveUp;
      GaveUpStays(request, worlds, actions, i, k - 1);
      assert Step(worlds[k - 1], actions[k - 1]) == Some(worlds[k - 1 + 1]);
      StepKnows(worlds[k - 1], actions[k - 1]);
    }
  }

  /** An abort before the commit, or the manager's death before it, means the job never becomes visible:
      not before, not later, whatever the other processes still do. */
  lemma AbortMeansNeverVisible(request: JobId, worlds: seq<World>, actions: seq<Action>, i: nat, k: nat)
    requires IsRun(request, worlds, actions) && i < |worlds| && k < |worlds|
    requires worlds[i].manager.Aborting? || worlds[i].manager.Aborted? || (worlds[i].manager.ManagerGone? && !worlds[i].committing)
    ensures worlds[k].published == None && !worlds[k].visible
  {
    RunInv(request, worlds, actions, i);
    RunInv(request, worlds, actions, k);
    if i <= k { GaveUpStays(request, worlds, actions, i, k); }
    else { CommitStays(request, worlds, actions, k, i); }
  }

  lemma {:induction false} CommitStays(request: JobId, worlds: seq<World>, actions: seq<Action>, i: nat, k: nat)
    requires IsRun(request, worlds, actions) && i <= k < |worlds|
    ensures worlds[i].committing ==> worlds[k].committing
    decreases k
  {
    if i < k {
      hide Step;
      CommitStays(request, worlds, actions, i, k - 1);
      assert Step(worlds[k - 1], actions[k - 1]) == Some(worlds[k - 1 + 1]);
      StepKnows(worlds[k - 1], actions[k - 1]);
    }
  }

  /** The staged directory is gone once the runner has ended in order; it is never there beside the published job. */
  lemma NothingStagedIsLeft(request: JobId, worlds: seq<World>, actions: seq<Action>, k: nat)
    requires IsRun(request, worlds, actions) && k < |worlds|
    ensures worlds[k].runner.RunnerEnded? ==> !worlds[k].staged
    ensures worlds[k].staged ==> worlds[k].published == None && !worlds[k].visible
  {
    RunInv(request, worlds, actions, k);
  }

  // ---------------------------------------------------------------- the pending job

  /** The runner's staged directory with its lease; `mu` makes each method one step. */
  class PendingJob {
    var settled: bool
    var open: bool
    var staged: bool
    var published: bool
    var leased: bool

    constructor ()
      ensures Valid() && !settled && staged && leased
    {
      settled, open, staged, published, leased := false, true, true, false, true;
    }

    /** Commit and abort never both take effect: before either, the staged directory and its lease are there. */
    ghost predicate Valid()
      reads this
    {
      && (!settled ==> open && staged && leased && !published)
      && (settled ==> !open && !(published && staged))
    }

    /** None: no lease, nothing was published. A published job is never taken back, even after a failed sync. */
    method Commit(nameTaken: bool, renameFails: bool) returns (lease: bool)
      requires Valid()
      modifies this
      ensures Valid() && (lease <==> !old(settled) && !nameTaken && !renameFails)
      ensures lease ==> settled && published && !staged && leased
      ensures !lease ==> unchanged(this)
    {
      if settled || nameTaken || renameFails { return false; }
      staged, published := false, true;
      settled, open := true, false;
      lease := true;
    }

    /** After a commit nothing happens; otherwise the lease is dropped and the directory removed, as far as that works. */
    method Abort(removalFails: bool)
      requires Valid()
      modifies this
      ensures Valid() && settled && published == old(published)
      ensures old(settled) ==> unchanged(this)
      ensures !old(settled) ==> !leased && (staged <==> removalFails)
    {
      if settled { return; }
      settled, leased := true, false;
      staged := removalFails;
      open := false;
    }
  }
}
