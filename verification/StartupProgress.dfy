/** What the start handshake is for: while nothing goes wrong the manager returns the published job, and only
    what went wrong takes a process off that way. */
module StartupProgress {
  import opened JobState
  import opened Startup

  /** A step in which nothing goes wrong. */
  predicate Good(a: Action) {
    (a.ManagerStep? || a.BootstrapStep? || a.RunnerStep?) && a.good
  }

  ghost predicate AllGood(actions: seq<Action>) { forall i :: 0 <= i < |actions| ==> Good(actions[i]) }

  function Play(w: World, actions: seq<Action>): Option<World>
    decreases |actions|
  {
    if actions == [] then Some(w)
    else
      var v := Step(w, actions[0]);
      if v.Some? then Play(v.value, actions[1..]) else None
  }

  // ---------------------------------------------------------------- the timetable of an ordinary start

  const RETURNED := 18

  /** The world after `n` good moves; once the job is published its runner may end at any time. */
  function Ordinary(request: JobId, n: nat, ended: bool): World
    requires ended ==> n >= 16
  {
    World(
      request,
      if n == 0 then SendStart else if n <= 8 then AwaitPrepared else if n == 9 then Decide
        else if n == 10 then Committing else if n < RETURNED then AwaitCommitted else Returned(request),
      if n <= 1 then ReadStart else if n == 2 then Launch(request) else if n <= 6 then AwaitRunner else if n == 7 then Offer
        else if n <= 11 then AwaitCommit else if n == 12 then Relay else if n <= 16 then AwaitDone else BootstrapEnded,
      if n <= 2 then NotStarted else if n == 3 then ReadRequest else if n == 4 then Prepare(request)
        else if n == 5 then Announce(request) else if n <= 13 then AwaitOrder(request) else if n == 14 then Publish(request)
        else if n == 15 then Confirm(request) else if ended then RunnerEnded else Supervise,
      Pipe(if n == 1 then [StartFrame(request)] else if n == 11 then [CommitFrame] else [], n >= 11),
      Pipe(if n == 3 then [StartFrame(request)] else if n == 13 then [CommitFrame] else [], n >= 17),
      Pipe(if n == 6 then [PreparedFrame] else if n == 16 then [CommittedFrame(request)] else [], n >= 16 && ended),
      Pipe(if n == 8 then [PreparedFrame] else if n == 17 then [CommittedFrame(request)] else [], n >= 17),
      5 <= n <= 14, n >= 15, n >= 10, if n >= 15 then Some(request) else None)
  }

  /** Whose move it is. */
  function Mover(n: nat): Action {
    if n in {0, 8, 9, 10, 17} then ManagerStep(true, true)
    else if n in {3, 4, 5, 13, 14, 15} then RunnerStep(true, true)
    else BootstrapStep(true, true)
  }

  lemma OrdinaryBegins(request: JobId)
    ensures Ordinary(request, 0, false) == InitialWorld(request)
  {}

  lemma OneFrame(p: Pipe, f: Frame)
    requires p.frames == []
    ensures Send(p, f) == SendIf(p, f, true) == Pipe([f], p.closed)
  {}

  lemma ReadsOne(p: Pipe)
    requires |p.frames| == 1
    ensures ReadFrom(p) == Got(p.frames[0], Pipe([], p.closed))
  {}

  lemma MoverMoves(request: JobId, n: nat, ended: bool)
    requires n < RETURNED && (ended ==> n >= 16)
    ensures Step(Ordinary(request, n, ended), Mover(n)) == Some(Ordinary(request, n + 1, ended))
  {
    hide Send, SendIf, ReadFrom;
    forall p: Pipe, f: Frame | p.frames == [] ensures Send(p, f) == Pipe([f], p.closed) { OneFrame(p, f); }
    forall p: Pipe, f: Frame | p.frames == [] ensures SendIf(p, f, true) == Pipe([f], p.closed) { OneFrame(p, f); }
    forall p: Pipe | |p.frames| == 1 ensures ReadFrom(p) == Got(p.frames[0], Pipe([], p.closed)) { ReadsOne(p); }
  }

  /** A good step keeps to the timetable. */
  lemma GoodStepIsOrdinary(request: JobId, n: nat, ended: bool, a: Action) returns (m: nat, over: bool)
    requires n <= RETURNED && (ended ==> n >= 16) && Good(a) && Step(Ordinary(request, n, ended), a).Some?
    ensures n <= m <= RETURNED && (over ==> m >= 16) && Step(Ordinary(request, n, ended), a) == Some(Ordinary(request, m, over))
    ensures ended ==> over
  {
    var w := Ordinary(request, n, ended);
    var mine := if n == RETURNED then false
      else (a.ManagerStep? <==> Mover(n).ManagerStep?) && (a.RunnerStep? <==> Mover(n).RunnerStep?);
    m, over := if mine then n + 1 else n, if mine then ended else true;
    if mine { MoverMoves(request, n, ended); }
  }
  /** A run in which nothing has gone wrong yet keeps to the timetable. */
  lemma {:induction false} GoodRunIsOrdinary(request: JobId, worlds: seq<World>, actions: seq<Action>, k: nat)
    returns (n: nat, ended: bool)
    requires IsRun(request, worlds, actions) && k < |worlds| && AllGood(actions[..k])
    ensures n <= RETURNED && (ended ==> n >= 16) && worlds[k] == Ordinary(request, n, ended)
  {
    hide Step, Ordinary;
    if k == 0 {
      OrdinaryBegins(request);
      n, ended := 0, false;
    } else {
      assert actions[..k][..k - 1] == actions[..k - 1];
      var m, over := GoodRunIsOrdinary(request, worlds, actions, k - 1);
      assert Step(worlds[k - 1], actions[k - 1]) == Some(worlds[k - 1 + 1]);
      assert Good(actions[..k][k - 1]);
      n, ended := GoodStepIsOrdinary(request, m, over, actions[k - 1]);
    }
  }

  lemma {:induction false} TimetableEnds(request: JobId, n: nat, ended: bool) returns (more: seq<Action>)
    requires n <= RETURNED && (ended ==> n >= 16)
    ensures AllGood(more) && Play(Ordinary(request, n, ended), more) == Some(Ordinary(request, RETURNED, ended))
    decreases RETURNED - n
  {
    hide Step, Ordinary;
    if n == RETURNED {
      more := [];
    } else {
      MoverMoves(request, n, ended);
      var rest := TimetableEnds(request, n + 1, ended);
      more := [Mover(n)] + rest;
      assert more[1..] == rest;
    }
  }

  /** From every world of a run in which nothing has gone wrong, good moves lead to the end: the manager has the
      metadata of the job it asked for, the job is published under that id and visible, nothing staged is left, and
      its runner supervises it unless the job has ended already. */
  lemma OrdinaryStartReturns(request: JobId, worlds: seq<World>, actions: seq<Action>, k: nat)
    returns (more: seq<Action>, v: World)
    requires IsRun(request, worlds, actions) && k < |worlds| && AllGood(actions[..k])
    ensures AllGood(more) && Play(worlds[k], more) == Some(v)
    ensures v.manager == Returned(request) && v.bootstrap.BootstrapEnded?
    ensures v.visible && v.published == Some(request) && !v.staged
    ensures v.runner == if worlds[k].runner.RunnerEnded? then RunnerEnded else Supervise
  {
    hide Step;
    var n, ended := GoodRunIsOrdinary(request, worlds, actions, k);
    more := TimetableEnds(request, n, ended);
    v := Ordinary(request, RETURNED, ended);
  }

  // ---------------------------------------------------------------- who leaves the way, and why

  /** The next read of a pipe finds its end. */
  predicate AtEnd(p: Pipe) { p.frames == [] && p.closed }

  /** The manager begins to abort exactly when, before its commit, a step of its own went wrong, its bootstrap's
      stream ended, or a frame other than the offer came. */
  lemma AbortsExactly(w: World, a: Action)
    requires Step(w, a).Some? && !w.manager.Aborting?
    ensures Step(w, a).value.manager.Aborting? <==>
      && a.ManagerStep?
      && match w.manager
         case SendStart | Decide => !a.good
         case AwaitPrepared =>
           !a.good || AtEnd(w.toManager) || (w.toManager.frames != [] && !w.toManager.frames[0].PreparedFrame?)
         case _ => false
  {
    hide BootstrapMove, RunnerMove;
    if a.BootstrapStep? { BootstrapKnows(w, a.good, a.delivered); }
    if a.RunnerStep? { RunnerKnows(w, a.good, a.delivered); }
  }

  /** The manager returns exactly when the frame that answers its commit names a job, or when it asks the store
      and the job is there; it fails only when that asking is over. */
  lemma ReturnsExactly(w: World, a: Action)
    requires Step(w, a).Some? && !w.manager.Returned? && !w.manager.Failed?
    ensures Step(w, a).value.manager.Returned? <==>
      && a.ManagerStep? && a.good
      && match w.manager
         case AwaitCommitted => w.toManager.frames != [] && w.toManager.frames[0].CommittedFrame?
         case Recover => w.visible && w.published.Some?
         case _ => false
    ensures Step(w, a).value.manager.Failed? <==> a.ManagerStep? && w.manager.Recover? && !a.good
  {
    hide BootstrapMove, RunnerMove;
    if a.BootstrapStep? { BootstrapKnows(w, a.good, a.delivered); }
    if a.RunnerStep? { RunnerKnows(w, a.good, a.delivered); }
  }

  /** The frame the bootstrap waits for. */
  predicate Expected(b: Bootstrap, f: Frame) {
    match b
    case ReadStart => f.StartFrame?
    case AwaitRunner => f.PreparedFrame?
    case AwaitCommit => f.CommitFrame?
    case AwaitDone => f.CommittedFrame?
    case _ => true
  }

  /** While it reads, the bootstrap gives up exactly when the read went wrong, at the end of the stream, or on a
      frame that is not the one it waits for; a start that it could not read it answers at once. */
  lemma BootstrapStopsReadingExactly(w: World, good: bool, delivered: bool)
    requires Reads(w.bootstrap) && BootstrapMove(w, good, delivered).Some?
    ensures var v, p := BootstrapMove(w, good, delivered).value, if w.bootstrap.ReadStart? || w.bootstrap.AwaitCommit? then w.toBootstrap else w.fromRunner;
      && (v.bootstrap.Stopping? || v.bootstrap.Failing? <==>
            !good || AtEnd(p) || (p.frames != [] && !Expected(w.bootstrap, p.frames[0])))
      && (v.bootstrap.Failing? ==> w.bootstrap.ReadStart?) && (v.bootstrap.Stopping? ==> !w.bootstrap.ReadStart? && v.toRunner.closed)
  {
    hide Send, BootstrapWrites;
  }

  /** While it writes, the bootstrap stops exactly when the write went wrong. Stopping takes the runner's input
      away, so a runner that is not told to commit ends. */
  lemma BootstrapStopsWritingExactly(w: World, good: bool, delivered: bool)
    requires (w.bootstrap.Launch? || w.bootstrap.Offer? || w.bootstrap.Relay?) && BootstrapMove(w, good, delivered).Some?
    ensures var v := BootstrapMove(w, good, delivered).value;
      (v.bootstrap.Stopping? <==> !good) && !v.bootstrap.Failing? && !v.bootstrap.BootstrapEnded? && (v.bootstrap.Stopping? ==> v.toRunner.closed)
  {
    hide Send, SendIf, BootstrapReads;
  }

  /** The runner leaves its way to the publication exactly on a step of its own that went wrong, when its input ends
      without the commit, or on another frame; what it staged it then takes away. */
  lemma RunnerGivesUpExactly(w: World, good: bool, delivered: bool)
    requires RunnerMove(w, good, delivered).Some?
    requires w.runner.ReadRequest? || w.runner.Prepare? || w.runner.Announce? || w.runner.AwaitOrder? || w.runner.Publish?
    ensures var v := RunnerMove(w, good, delivered).value;
      && (v.runner.Abort? || v.runner.RunnerEnded? <==>
            || !good
            || (w.runner.ReadRequest? && (AtEnd(w.toRunner) || (w.toRunner.frames != [] && !w.toRunner.frames[0].StartFrame?)))
            || (w.runner.AwaitOrder? && (AtEnd(w.toRunner) || (w.toRunner.frames != [] && !w.toRunner.frames[0].CommitFrame?))))
      && (v.runner.Abort? ==> RunnerMove(v, good, delivered) == Some(RunnerEnds(v.(staged := false))))
  {}

  // ---------------------------------------------------------------- every start comes to an end

  /** Whoever has ended, or writes no more, has closed its end. */
  predicate EndsClosed(w: World) {
    && (w.bootstrap.BootstrapEnded? ==> w.toManager.closed && w.toRunner.closed)
    && (w.manager.SendStart? || w.manager.AwaitPrepared? || w.manager.Decide? || w.manager.Committing? || w.toBootstrap.closed)
    && (w.runner.RunnerEnded? || w.runner.RunnerGone? ==> w.fromRunner.closed)
    && (w.bootstrap.Stopping? ==> w.toRunner.closed)
  }

  /** Nobody is ahead of the frames it was sent. */
  predicate InStep(w: World) {
    && (w.manager.SendStart? ==> w.toBootstrap.frames == [] && (w.bootstrap.ReadStart? || w.bootstrap.Failing? || w.bootstrap.BootstrapEnded?))
    && (w.bootstrap.Failing? ==> Idle(w.runner))
    && (w.bootstrap.ReadStart? || w.bootstrap.Launch? ==> w.runner.NotStarted?)
    && (w.bootstrap.AwaitRunner? ==> !w.runner.NotStarted?)
    && (w.fromRunner.frames != [] || Offered(w.bootstrap) ==> Announced(w.runner))
  }

  /** Whoever is waited for has answered, or will. */
  predicate Answered(w: World) {
    && (w.bootstrap.ReadStart? && w.manager.AwaitPrepared? ==> w.toBootstrap.frames != [])
    && (w.bootstrap.AwaitCommit? && w.manager.AwaitPrepared? ==> w.toManager.frames != [])
    && (w.bootstrap.AwaitRunner? && w.runner.ReadRequest? ==> w.toRunner.frames != [])
    && (w.bootstrap.AwaitRunner? && w.runner.AwaitOrder? ==> w.fromRunner.frames != [])
    && (w.bootstrap.AwaitDone? && w.runner.AwaitOrder? ==> w.toRunner.frames != [])
  }

  predicate Connected(w: World) { EndsClosed(w) && InStep(w) && Answered(w) }

  predicate Idle(r: Runner) { r.NotStarted? || r.RunnerEnded? || r.RunnerGone? }

  predicate Announced(r: Runner) { !r.NotStarted? && !r.ReadRequest? && !r.Prepare? && !r.Announce? }

  predicate Offered(b: Bootstrap) { b.Offer? || b.AwaitCommit? || b.Relay? || b.AwaitDone? }

  lemma ConnectedStep(w: World, a: Action)
    requires Connected(w) && Step(w, a).Some?
    ensures Connected(Step(w, a).value)
  {
    hide ManagerMove, BootstrapMove, RunnerMove;
    if a.ManagerStep? { ConnectedManager(w, a.good, a.delivered); }
    else if a.BootstrapStep? { ConnectedBootstrap(w, a.good, a.delivered); }
    else if a.RunnerStep? { ConnectedRunner(w, a.good, a.delivered); }
  }

  lemma SendFacts(p: Pipe, f: Frame)
    ensures Send(p, f).closed == SendIf(p, f, true).closed == SendIf(p, f, false).closed == p.closed && Send(p, f).frames != []
  {}

  lemma ReadFacts(p: Pipe)
    ensures ReadFrom(p).Got? ==> p.frames != [] && ReadFrom(p).rest.closed == p.closed
    ensures ReadFrom(p).End? ==> p.frames == [] && p.closed
    ensures ReadFrom(p).Nothing? ==> Stuck(p)
  {}

  lemma ConnectedManager(w: World, good: bool, delivered: bool)
    requires Connected(w) && ManagerMove(w, good, delivered).Some?
    ensures Connected(ManagerMove(w, good, delivered).value)
  {
    hide ManagerMove, EndsClosed, InStep, Answered;
    EndsClosedManager(w, good, delivered);
    InStepManager(w, good, delivered);
    AnsweredManager(w, good, delivered);
  }

  lemma EndsClosedManager(w: World, good: bool, delivered: bool)
    requires EndsClosed(w) && ManagerMove(w, good, delivered).Some?
    ensures EndsClosed(ManagerMove(w, good, delivered).value)
  {
    hide ReadFrom;
    ReadFacts(w.toManager);
    match w.manager {
      case SendStart => assert EndsClosed(ManagerMove(w, good, delivered).value);
      case AwaitPrepared => assert EndsClosed(ManagerMove(w, good, delivered).value);
      case Decide => assert EndsClosed(ManagerMove(w, good, delivered).value);
      case Committing => assert EndsClosed(ManagerMove(w, good, delivered).value);
      case AwaitCommitted => assert EndsClosed(ManagerMove(w, good, delivered).value);
      case Recover => assert EndsClosed(ManagerMove(w, good, delivered).value);
      case Aborting => assert EndsClosed(ManagerMove(w, good, delivered).value);
      case _ =>
    }
  }

  lemma InStepManager(w: World, good: bool, delivered: bool)
    requires InStep(w) && ManagerMove(w, good, delivered).Some?
    ensures InStep(ManagerMove(w, good, delivered).value)
  {
    hide Send, SendIf, ReadFrom;
    SendFacts(w.toBootstrap, StartFrame(w.request));
    SendFacts(w.toBootstrap, CommitFrame);
    match w.manager {
      case SendStart => assert InStep(ManagerMove(w, good, delivered).value);
      case AwaitPrepared => assert InStep(ManagerMove(w, good, delivered).value);
      case Decide => assert InStep(ManagerMove(w, good, delivered).value);
      case Committing => assert InStep(ManagerMove(w, good, delivered).value);
      case AwaitCommitted => assert InStep(ManagerMove(w, good, delivered).value);
      case Recover => assert InStep(ManagerMove(w, good, delivered).value);
      case Aborting => assert InStep(ManagerMove(w, good, delivered).value);
      case _ =>
    }
  }

  lemma AnsweredManager(w: World, good: bool, delivered: bool)
    requires InStep(w) && Answered(w) && ManagerMove(w, good, delivered).Some?
    ensures Answered(ManagerMove(w, good, delivered).value)
  {
    hide Send, SendIf, ReadFrom;
    SendFacts(w.toBootstrap, StartFrame(w.request));
    SendFacts(w.toBootstrap, CommitFrame);
    ReadFacts(w.toManager);
    match w.manager {
      case SendStart => assert Answered(ManagerMove(w, good, delivered).value);
      case AwaitPrepared => assert Answered(ManagerMove(w, good, delivered).value);
      case Decide => assert Answered(ManagerMove(w, good, delivered).value);
      case Committing => assert Answered(ManagerMove(w, good, delivered).value);
      case AwaitCommitted => assert Answered(ManagerMove(w, good, delivered).value);
      case Recover => assert Answered(ManagerMove(w, good, delivered).value);
      case Aborting => assert Answered(ManagerMove(w, good, delivered).value);
      case _ =>
    }
  }

  lemma ConnectedBootstrap(w: World, good: bool, delivered: bool)
    requires Connected(w) && BootstrapMove(w, good, delivered).Some?
    ensures Connected(BootstrapMove(w, good, delivered).value)
  {
    hide BootstrapReads, BootstrapWrites, Connected;
    if Reads(w.bootstrap) { ConnectedReads(w, good); } else { ConnectedWrites(w, good, delivered); }
  }

  lemma ConnectedReads(w: World, good: bool)
    requires Connected(w) && Reads(w.bootstrap) && BootstrapReads(w, good).Some?
    ensures Connected(BootstrapReads(w, good).value)
  {
    hide BootstrapReads, EndsClosed, InStep, Answered;
    EndsClosedReads(w, good);
    InStepReads(w, good);
    AnsweredReads(w, good);
  }

  lemma EndsClosedReads(w: World, good: bool)
    requires EndsClosed(w) && Reads(w.bootstrap) && BootstrapReads(w, good).Some?
    ensures EndsClosed(BootstrapReads(w, good).value)
  {
    hide BootstrapReads;
    if w.bootstrap.AwaitDone? { EndsClosedDone(w, good); } else { EndsClosedEarlier(w, good); }
  }

  lemma EndsClosedDone(w: World, good: bool)
    requires EndsClosed(w) && w.bootstrap.AwaitDone? && BootstrapReads(w, good).Some?
    ensures EndsClosed(BootstrapReads(w, good).value)
  {
    hide ReadFrom;
    ReadFacts(w.fromRunner);
  }

  lemma EndsClosedEarlier(w: World, good: bool)
    requires EndsClosed(w) && Reads(w.bootstrap) && !w.bootstrap.AwaitDone? && BootstrapReads(w, good).Some?
    ensures EndsClosed(BootstrapReads(w, good).value)
  {
    hide ReadFrom;
    ReadFacts(w.toBootstrap);
    ReadFacts(w.fromRunner);
  }

  lemma InStepReads(w: World, good: bool)
    requires InStep(w) && Reads(w.bootstrap) && BootstrapReads(w, good).Some?
    ensures InStep(BootstrapReads(w, good).value)
  {
    hide Send, SendIf, ReadFrom;
    ReadFacts(w.toBootstrap);
    ReadFacts(w.fromRunner);
    if ReadFrom(w.fromRunner).Got? { SendFacts(w.toManager, ReadFrom(w.fromRunner).frame); }
    match w.bootstrap {
      case ReadStart => assert InStep(BootstrapReads(w, good).value);
      case AwaitRunner => assert InStep(BootstrapReads(w, good).value);
      case AwaitCommit => assert InStep(BootstrapReads(w, good).value);
      case AwaitDone => assert InStep(BootstrapReads(w, good).value);
    }
  }

  lemma AnsweredReads(w: World, good: bool)
    requires InStep(w) && Answered(w) && Reads(w.bootstrap) && BootstrapReads(w, good).Some?
    ensures Answered(BootstrapReads(w, good).value)
  {
    hide Send, SendIf, ReadFrom;
    ReadFacts(w.toBootstrap);
    ReadFacts(w.fromRunner);
    if ReadFrom(w.fromRunner).Got? { SendFacts(w.toManager, ReadFrom(w.fromRunner).frame); }
    match w.bootstrap {
      case ReadStart => assert Answered(BootstrapReads(w, good).value);
      case AwaitRunner => assert Answered(BootstrapReads(w, good).value);
      case AwaitCommit => assert Answered(BootstrapReads(w, good).value);
      case AwaitDone => assert Answered(BootstrapReads(w, good).value);
    }
  }

  lemma ConnectedWrites(w: World, good: bool, delivered: bool)
    requires Connected(w) && !Reads(w.bootstrap) && BootstrapWrites(w, good, delivered).Some?
    ensures Connected(BootstrapWrites(w, good, delivered).value)
  {
    hide BootstrapWrites, EndsClosed, InStep, Answered;
    EndsClosedWrites(w, good, delivered);
    InStepWrites(w, good, delivered);
    AnsweredWrites(w, good, delivered);
  }

  lemma EndsClosedWrites(w: World, good: bool, delivered: bool)
    requires EndsClosed(w) && !Reads(w.bootstrap) && BootstrapWrites(w, good, delivered).Some?
    ensures EndsClosed(BootstrapWrites(w, good, delivered).value)
  {
    hide ReadFrom;
    match w.bootstrap {
      case Launch(_) => assert EndsClosed(BootstrapWrites(w, good, delivered).value);
      case Offer => assert EndsClosed(BootstrapWrites(w, good, delivered).value);
      case Relay => assert EndsClosed(BootstrapWrites(w, good, delivered).value);
      case Stopping => assert EndsClosed(BootstrapWrites(w, good, delivered).value);
      case Failing => assert EndsClosed(BootstrapWrites(w, good, delivered).value);
      case BootstrapEnded =>
    }
  }

  lemma InStepWrites(w: World, good: bool, delivered: bool)
    requires InStep(w) && !Reads(w.bootstrap) && BootstrapWrites(w, good, delivered).Some?
    ensures InStep(BootstrapWrites(w, good, delivered).value)
  {
    hide Send, SendIf, ReadFrom;
    if w.bootstrap.Launch? { SendFacts(w.toRunner, StartFrame(w.bootstrap.id)); }
    SendFacts(w.toManager, PreparedFrame);
    SendFacts(w.toRunner, CommitFrame);
    SendFacts(w.toManager, FailureFrame);
    match w.bootstrap {
      case Launch(_) => assert InStep(BootstrapWrites(w, good, delivered).value);
      case Offer => assert InStep(BootstrapWrites(w, good, delivered).value);
      case Relay => assert InStep(BootstrapWrites(w, good, delivered).value);
      case Stopping => assert InStep(BootstrapWrites(w, good, delivered).value);
      case Failing => assert InStep(BootstrapWrites(w, good, delivered).value);
      case BootstrapEnded =>
    }
  }

  lemma AnsweredWrites(w: World, good: bool, delivered: bool)
    requires InStep(w) && Answered(w) && !Reads(w.bootstrap) && BootstrapWrites(w, good, delivered).Some?
    ensures Answered(BootstrapWrites(w, good, delivered).value)
  {
    hide Send, SendIf, ReadFrom;
    if w.bootstrap.Launch? { SendFacts(w.toRunner, StartFrame(w.bootstrap.id)); }
    SendFacts(w.toManager, PreparedFrame);
    SendFacts(w.toRunner, CommitFrame);
    SendFacts(w.toManager, FailureFrame);
    match w.bootstrap {
      case Launch(_) => assert Answered(BootstrapWrites(w, good, delivered).value);
      case Offer => assert Answered(BootstrapWrites(w, good, delivered).value);
      case Relay => assert Answered(BootstrapWrites(w, good, delivered).value);
      case Stopping => assert Answered(BootstrapWrites(w, good, delivered).value);
      case Failing => assert Answered(BootstrapWrites(w, good, delivered).value);
      case BootstrapEnded =>
    }
  }

  lemma ConnectedRunner(w: World, good: bool, delivered: bool)
    requires Connected(w) && RunnerMove(w, good, delivered).Some?
    ensures Connected(RunnerMove(w, good, delivered).value)
  {
    hide RunnerMove, EndsClosed, InStep, Answered;
    EndsClosedRunner(w, good, delivered);
    InStepRunner(w, good, delivered);
    AnsweredRunner(w, good, delivered);
  }

  lemma EndsClosedRunner(w: World, good: bool, delivered: bool)
    requires EndsClosed(w) && RunnerMove(w, good, delivered).Some?
    ensures EndsClosed(RunnerMove(w, good, delivered).value)
  {
    hide ReadFrom;
    ReadFacts(w.toRunner);
    match w.runner {
      case ReadRequest => assert EndsClosed(RunnerMove(w, good, delivered).value);
      case Prepare(_) => assert EndsClosed(RunnerMove(w, good, delivered).value);
      case Announce(_) => assert EndsClosed(RunnerMove(w, good, delivered).value);
      case AwaitOrder(_) => assert EndsClosed(RunnerMove(w, good, delivered).value);
      case Publish(_) => assert EndsClosed(RunnerMove(w, good, delivered).value);
      case Confirm(_) => assert EndsClosed(RunnerMove(w, good, delivered).value);
      case Supervise => assert EndsClosed(RunnerMove(w, good, delivered).value);
      case Abort => assert EndsClosed(RunnerMove(w, good, delivered).value);
      case _ =>
    }
  }

  lemma InStepRunner(w: World, good: bool, delivered: bool)
    requires InStep(w) && RunnerMove(w, good, delivered).Some?
    ensures InStep(RunnerMove(w, good, delivered).value)
  {
    hide Send, SendIf, ReadFrom;
    SendFacts(w.fromRunner, PreparedFrame);
    if w.runner.Confirm? { SendFacts(w.fromRunner, CommittedFrame(w.runner.id)); }
    ReadFacts(w.toRunner);
    match w.runner {
      case ReadRequest => assert InStep(RunnerMove(w, good, delivered).value);
      case Prepare(_) => assert InStep(RunnerMove(w, good, delivered).value);
      case Announce(_) => assert InStep(RunnerMove(w, good, delivered).value);
      case AwaitOrder(_) => assert InStep(RunnerMove(w, good, delivered).value);
      case Publish(_) => assert InStep(RunnerMove(w, good, delivered).value);
      case Confirm(_) => assert InStep(RunnerMove(w, good, delivered).value);
      case Supervise => assert InStep(RunnerMove(w, good, delivered).value);
      case Abort => assert InStep(RunnerMove(w, good, delivered).value);
      case _ =>
    }
  }

  lemma AnsweredRunner(w: World, good: bool, delivered: bool)
    requires InStep(w) && Answered(w) && RunnerMove(w, good, delivered).Some?
    ensures Answered(RunnerMove(w, good, delivered).value)
  {
    hide Send, SendIf, ReadFrom;
    SendFacts(w.fromRunner, PreparedFrame);
    if w.runner.Confirm? { SendFacts(w.fromRunner, CommittedFrame(w.runner.id)); }
    ReadFacts(w.toRunner);
    match w.runner {
      case ReadRequest => assert Answered(RunnerMove(w, good, delivered).value);
      case Prepare(_) => assert Answered(RunnerMove(w, good, delivered).value);
      case Announce(_) => assert Answered(RunnerMove(w, good, delivered).value);
      case AwaitOrder(_) => assert Answered(RunnerMove(w, good, delivered).value);
      case Publish(_) => assert Answered(RunnerMove(w, good, delivered).value);
      case Confirm(_) => assert Answered(RunnerMove(w, good, delivered).value);
      case Supervise => assert Answered(RunnerMove(w, good, delivered).value);
      case Abort => assert Answered(RunnerMove(w, good, delivered).value);
      case _ =>
    }
  }

  lemma {:induction false} RunConnected(request: JobId, worlds: seq<World>, actions: seq<Action>, k: nat)
    requires IsRun(request, worlds, actions) && k < |worlds|
    ensures Connected(worlds[k])
  {
    if k > 0 {
      hide Step, Connected;
      RunConnected(request, worlds, actions, k - 1);
      assert Step(worlds[k - 1], actions[k - 1]) == Some(worlds[k - 1 + 1]);
      ConnectedStep(worlds[k - 1], actions[k - 1]);
    }
  }

  /** How far each process is from its end. */
  function ManagerLeft(m: Manager): nat {
    match m
    case SendStart => 6 case AwaitPrepared => 5 case Decide => 4 case Committing => 3 case AwaitCommitted => 2
    case Recover => 1 case Aborting => 1
    case _ => 0
  }

  function BootstrapLeft(b: Bootstrap): nat {
    match b
    case ReadStart => 9 case Launch(_) => 8 case AwaitRunner => 7 case Offer => 6 case AwaitCommit => 5
    case Relay => 4 case AwaitDone => 3 case Stopping => 2 case Failing => 1 case BootstrapEnded => 0
  }

  function RunnerLeft(r: Runner): nat {
    match r
    case NotStarted => 9 case ReadRequest => 8 case Prepare(_) => 7 case Announce(_) => 6 case AwaitOrder(_) => 5
    case Publish(_) => 4 case Confirm(_) => 3 case Supervise => 2 case Abort => 1
    case _ => 0
  }

  function TotalLeft(w: World): nat { ManagerLeft(w.manager) + BootstrapLeft(w.bootstrap) + RunnerLeft(w.runner) }

  /** Everybody is done; a manager that lost the answer to its commit asks the store until its deadline. */
  predicate Settled(w: World) {
    && (w.manager.Returned? || w.manager.Aborted? || w.manager.Failed? || w.manager.ManagerGone? || w.manager.Recover?)
    && w.bootstrap.BootstrapEnded? && Idle(w.runner)
  }

  predicate Stuck(p: Pipe) { p.frames == [] && !p.closed }

  /** Who can move, without a timeout. */
  function NextMover(w: World): Action {
    if !Idle(w.runner) && !((w.runner.ReadRequest? || w.runner.AwaitOrder?) && Stuck(w.toRunner)) then RunnerStep(true, true)
    else if !w.bootstrap.BootstrapEnded?
            && !((w.bootstrap.ReadStart? || w.bootstrap.AwaitCommit?) && Stuck(w.toBootstrap))
            && !((w.bootstrap.AwaitRunner? || w.bootstrap.AwaitDone?) && Stuck(w.fromRunner)) then BootstrapStep(true, true)
    else ManagerStep(true, true)
  }

  /** While anything is left to do somebody can move, and the move brings the end nearer. */
  lemma SomebodyMoves(w: World)
    requires Connected(w) && !Settled(w)
    ensures var v := Step(w, NextMover(w)); v.Some? && TotalLeft(v.value) < TotalLeft(w)
  {
    var a := NextMover(w);
    if a.RunnerStep? { RunnerCan(w); }
    else if a.BootstrapStep? { BootstrapCan(w); }
    else { ManagerCan(w); }
  }

  lemma RunnerCan(w: World)
    requires !Idle(w.runner) && !((w.runner.ReadRequest? || w.runner.AwaitOrder?) && Stuck(w.toRunner))
    ensures var v := RunnerMove(w, true, true);
      v.Some? && v.value.manager == w.manager && v.value.bootstrap == w.bootstrap && RunnerLeft(v.value.runner) < RunnerLeft(w.runner)
  {}

  lemma BootstrapCan(w: World)
    requires Connected(w) && NextMover(w).BootstrapStep?
    ensures var v := BootstrapMove(w, true, true);
      && v.Some? && v.value.manager == w.manager && BootstrapLeft(v.value.bootstrap) < BootstrapLeft(w.bootstrap)
      && RunnerLeft(v.value.runner) <= RunnerLeft(w.runner)
  {
    hide BootstrapReads, BootstrapWrites;
    if Reads(w.bootstrap) { ReaderCan(w); } else { WriterCan(w); }
  }

  lemma ReaderCan(w: World)
    requires Reads(w.bootstrap) && NextMover(w).BootstrapStep?
    ensures var v := BootstrapReads(w, true);
      && v.Some? && v.value.manager == w.manager && BootstrapLeft(v.value.bootstrap) < BootstrapLeft(w.bootstrap)
      && v.value.runner == w.runner
  {
    hide Send;
  }

  lemma WriterCan(w: World)
    requires Connected(w) && !Reads(w.bootstrap) && NextMover(w).BootstrapStep?
    ensures var v := BootstrapWrites(w, true, true);
      && v.Some? && v.value.manager == w.manager && BootstrapLeft(v.value.bootstrap) < BootstrapLeft(w.bootstrap)
      && RunnerLeft(v.value.runner) <= RunnerLeft(w.runner)
  {
    hide Send, SendIf, InStep, Answered;
  }

  lemma ManagerCan(w: World)
    requires Connected(w) && !Settled(w) && NextMover(w).ManagerStep?
    ensures var v := ManagerMove(w, true, true);
      v.Some? && v.value.bootstrap == w.bootstrap && v.value.runner == w.runner && ManagerLeft(v.value.manager) < ManagerLeft(w.manager)
  {}

  lemma {:induction false} Settles(w: World) returns (more: seq<Action>, v: World)
    requires Connected(w)
    ensures AllGood(more) && Play(w, more) == Some(v) && Connected(v) && Settled(v)
    decreases TotalLeft(w)
  {
    hide Step, Connected, Settled, NextMover, TotalLeft;
    if Settled(w) {
      more, v := [], w;
    } else {
      SomebodyMoves(w);
      var a := NextMover(w);
      MoverIsGood(w);
      var u := Step(w, a).value;
      ConnectedStep(w, a);
      var rest;
      rest, v := Settles(u);
      more := [a] + rest;
      assert more[1..] == rest;
    }
  }

  lemma MoverIsGood(w: World)
    ensures Good(NextMover(w))
  {}

  /** From every world of every run, whatever went wrong and whoever died before: without one more fault and without
      waiting for any timeout, every process comes to its end, the job included, and nothing staged is left unless its
      runner died. */
  lemma StartSettles(request: JobId, worlds: seq<World>, actions: seq<Action>, k: nat) returns (more: seq<Action>, v: World)
    requires IsRun(request, worlds, actions) && k < |worlds|
    ensures AllGood(more) && Play(worlds[k], more) == Some(v) && Settled(v)
    ensures v.staged ==> v.runner.RunnerGone?
  {
    hide Step, Connected, Settled;
    RunConnected(request, worlds, actions, k);
    more, v := Settles(worlds[k]);
    RunInv(request, worlds, actions, k);
    PlayInv(worlds[k], more);
    SettledRunner(v);
  }

  lemma {:induction false} PlayInv(w: World, actions: seq<Action>)
    requires Inv(w) && Play(w, actions).Some?
    ensures Inv(Play(w, actions).value)
    decreases |actions|
  {
    hide Inv, Step;
    if actions != [] {
      StepInv(w, actions[0]);
      PlayInv(Step(w, actions[0]).value, actions[1..]);
    }
  }

  lemma SettledRunner(w: World)
    requires Inv(w) && Settled(w)
    ensures w.staged ==> w.runner.RunnerGone?
  {}

  // ---------------------------------------------------------------- what a fault does

  /** What is written to a pipe: the frame, unless the write failed before it went out. */
  lemma WritesExactly(w: World, good: bool, delivered: bool)
    ensures var sent := (f: Frame) => if good || delivered then [f] else [];
      && (w.manager.SendStart? ==>
            ManagerMove(w, good, delivered).value.toBootstrap.frames == w.toBootstrap.frames + sent(StartFrame(w.request)))
      && (w.manager.Committing? ==>
            ManagerMove(w, good, delivered).value.toBootstrap == Pipe(w.toBootstrap.frames + sent(CommitFrame), true))
      && (w.bootstrap.Launch? ==>
            BootstrapMove(w, good, delivered).value.toRunner.frames == w.toRunner.frames + sent(StartFrame(w.bootstrap.id)))
      && (w.bootstrap.Offer? ==>
            BootstrapMove(w, good, delivered).value.toManager.frames == w.toManager.frames + sent(PreparedFrame))
      && (w.bootstrap.Relay? ==>
            BootstrapMove(w, good, delivered).value.toRunner.frames == w.toRunner.frames + sent(CommitFrame))
      && (w.bootstrap.Failing? ==>
            BootstrapMove(w, good, delivered).value.toManager == Pipe(w.toManager.frames + sent(FailureFrame), true))
      && (w.runner.Announce? ==>
            RunnerMove(w, good, delivered).value.fromRunner.frames == w.fromRunner.frames + sent(PreparedFrame))
      && (w.runner.Confirm? ==>
            RunnerMove(w, good, delivered).value.fromRunner.frames == w.fromRunner.frames + sent(CommittedFrame(w.runner.id)))
  {}

  /** After the commit frame the manager waits for the answer, or asks the store if the frame or the answer failed. */
  lemma CommitFaults(w: World, good: bool, delivered: bool)
    requires ManagerMove(w, good, delivered).Some?
    ensures w.manager.Committing? ==> ManagerMove(w, good, delivered).value.manager == if good then AwaitCommitted else Recover
    ensures w.manager.AwaitCommitted? && (!good || AtEnd(w.toManager)) ==> ManagerMove(w, good, delivered).value.manager == Recover
  {}

  /** Who waits for another process to end kills it when the wait is over: the aborting manager its bootstrap, the
      stopping bootstrap its runner. */
  lemma WaitsThenKills(w: World, good: bool, delivered: bool)
    ensures w.manager.Aborting? ==>
      var v := ManagerMove(w, good, delivered);
      && (v.Some? <==> w.bootstrap.BootstrapEnded? || !good)
      && (v.Some? ==> v.value.manager.Aborted? && v.value.bootstrap.BootstrapEnded?)
    ensures w.bootstrap.Stopping? ==>
      var v := BootstrapMove(w, good, delivered);
      && (v.Some? <==> Idle(w.runner) || !good)
      && (v.Some? ==> v.value.bootstrap.Failing? && v.value.runner == if Idle(w.runner) then w.runner else RunnerGone)
  {}

  /** A death closes the pipes of the dead and leaves everything else as it was. */
  lemma DeathsExactly(w: World)
    ensures Step(w, ManagerDies) == Some(w.(manager := ManagerGone, toBootstrap := Pipe(w.toBootstrap.frames, true)))
    ensures Step(w, BootstrapDies) ==
      Some(w.(bootstrap := BootstrapEnded, toRunner := Pipe(w.toRunner.frames, true), toManager := Pipe(w.toManager.frames, true)))
    ensures Step(w, RunnerDies) ==
      if w.runner.NotStarted? then None else Some(w.(runner := RunnerGone, fromRunner := Pipe(w.fromRunner.frames, true)))
    ensures Step(w, Removed) == Some(w.(visible := false))
  {}
}
