/** The supervision loop of the detached runner: a nondeterministic select over output, exit, timers,
    context and cancellation polls, until the shell exited, its output ended and its group was killed. */
module Supervisor {
  import opened JobState
  import opened JobProtocol

  datatype Signal = Term | Kill

  /** What the select may receive. `CancelPersisted` is no event of the loop: another process writes a
      cancellation into the state file in between. */
  datatype Event =
    | Output(data: seq<Byte>, appendFails: bool)
    | OutputEnd(readFails: bool)
    | ShellExit(report: ShellWait, lost: bool)
    | HardTimer
    | GraceTimer(reapFails: bool)
    | ContextDone
    | Poll(loadFails: bool)
    | CancelPersisted(at: int)

  /** The guardian reports one exit code of a process or one signal number, or is lost and reports nothing. */
  predicate GuardianReport(e: Event) {
    && (e.ShellExit? && e.lost ==> e.report == ShellWait(None, None))
    && (e.ShellExit? && !e.lost ==>
          || (e.report.signal.None? && e.report.exitCode.Some? && 0 <= e.report.exitCode.value <= 255)
          || (e.report.exitCode.None? && e.report.signal.Some? && 0 < e.report.signal.value <= 64))
  }

  const SIGKILL := 9

  // ---------------------------------------------------------------- one turn of the loop, field by field

  /** What the loop knows, and the job as the loop and its canceller have moved it. */
  datatype Loop = Loop(
    cause: Cause, wait: ShellWait, failed: bool, waited: bool, captureDone: bool, cleanupStarted: bool,
    cleanupDone: bool, hardArmed: bool, contextArmed: bool, pollArmed: bool, state: PersistedState)

  function Start(initial: PersistedState): Loop {
    Loop(Normal, ShellWait(None, None), false, false, false, false, false, true, true, true, initial)
  }

  predicate Over(l: Loop) { l.waited && l.captureDone && l.cleanupDone }

  /** The output is handed to an append; after the limit or an error it is only drained. */
  predicate Takes(l: Loop, e: Event) { e.Output? && !l.captureDone && l.cause != LimitCause && !l.failed }

  predicate Appends(l: Loop, e: Event) { Takes(l, e) && !e.appendFails }

  /** The cause the event strikes the job with; Normal where it does not. */
  function Strike(l: Loop, e: Event): Cause {
    if Appends(l, e) && l.cause == Normal && l.state.job.captured + |e.data| >= l.state.job.outputLimit then LimitCause
    else if e.HardTimer? && l.hardArmed && l.cause == Normal then TimeoutCause
    else if e.Poll? && !e.loadFails && l.pollArmed && l.state.cancellation.Some? then CancelledCause
    else Normal
  }

  /** An error that the loop keeps for its return. */
  predicate Errs(l: Loop, e: Event) {
    || (Takes(l, e) && e.appendFails)
    || (e.OutputEnd? && !l.captureDone && e.readFails)
    || (e.ShellExit? && !l.waited && e.lost && l.cause == Normal)
    || (e.GraceTimer? && l.cleanupStarted && !l.cleanupDone && e.reapFails)
    || (e.ContextDone? && l.contextArmed)
    || (e.Poll? && l.pollArmed && e.loadFails)
  }

  /** Reasons to send SIGTERM, unless it was sent before. */
  predicate Triggers(l: Loop, e: Event) {
    || Strike(l, e) != Normal
    || (e.ShellExit? && !l.waited)
    || (Takes(l, e) && e.appendFails)
    || (e.ContextDone? && l.contextArmed)
    || (e.Poll? && l.pollArmed && e.loadFails)
  }

  function StateAfter(l: Loop, e: Event): PersistedState {
    if Appends(l, e) then
      l.state.(job := l.state.job.(captured := Min(l.state.job.captured + |e.data|, l.state.job.outputLimit)))
    else if e.CancelPersisted? && EvaluateCancellation(l.state) == Requested then
      CancelRequested(l.state, e.at, l.state.job.owner)
    else l.state
  }

  function WaitAfter(l: Loop, e: Event): ShellWait {
    if e.ShellExit? && !l.waited then
      if e.report.signal.Some? then e.report else e.report.(signal := l.wait.signal)
    else if e.GraceTimer? && l.cleanupStarted && !l.cleanupDone && l.wait.signal.None? && l.cause != Normal then
      l.wait.(signal := Some(SIGKILL))
    else l.wait
  }

  function Received(l: Loop, e: Event): Loop {
    var strike := Strike(l, e);
    Loop(
      if strike != Normal then strike else l.cause,
      WaitAfter(l, e),
      l.failed || Errs(l, e),
      l.waited || e.ShellExit?,
      l.captureDone || e.OutputEnd?,
      l.cleanupStarted || Triggers(l, e),
      l.cleanupDone || (e.GraceTimer? && l.cleanupStarted),
      l.hardArmed && strike == Normal && !e.HardTimer? && !e.ShellExit?,
      l.contextArmed && !e.ContextDone?,
      l.pollArmed && strike != CancelledCause,
      StateAfter(l, e))
  }

  /** The loop after the first `n` events; once over it receives nothing more. */
  function After(initial: PersistedState, events: seq<Event>, n: nat): Loop
    requires n <= |events|
  {
    if n == 0 then Start(initial)
    else
      var l := After(initial, events, n - 1);
      if Over(l) then l else Received(l, events[n - 1])
  }

  /** The event at `n` is received. */
  predicate Receives(initial: PersistedState, events: seq<Event>, n: nat) {
    n < |events| && !Over(After(initial, events, n))
  }

  function SignalsOf(l: Loop): seq<Signal> {
    (if l.cleanupStarted then [Term] else []) + if l.cleanupDone then [Kill] else []
  }

  datatype Result = Pending | Failed | Done(outcome: Outcome)

  function ResultOf(l: Loop, groupSignalFails: bool): Result {
    if !Over(l) then Pending else if l.failed || groupSignalFails then Failed else Done(Outcome(l.cause, l.wait))
  }

  // ---------------------------------------------------------------- the loop

  /** The job as the loop and its canceller move it. */
  ghost predicate Tracked(p: Policy, initial: PersistedState, s: PersistedState, now: int) {
    Committed(p, s, now) && s.job.status == Running && Extends(initial, s)
  }

  /** One chunk of output: what fits is captured, and the limit is reached when the total does. */
  method TakeOutput(p: Policy, initial: PersistedState, s: PersistedState, incoming: nat, ghost now: int)
    returns (next: PersistedState, reached: bool)
    requires Tracked(p, initial, s, now)
    ensures next == s.(job := s.job.(captured := Min(s.job.captured + incoming, s.job.outputLimit)))
    ensures Tracked(p, initial, next, now)
    ensures reached <==> s.job.captured + incoming >= s.job.outputLimit
  {
    AppendedCommitted(p, s, incoming, now);
    next := Appended(s, AcceptedBytes(p, s.job.captured, incoming, s.job.outputLimit).value);
    reached := next.job.captured == next.job.outputLimit;
    ExtendsTransitive(initial, s, next);
  }

  lemma CancellationTracked(p: Policy, initial: PersistedState, s: PersistedState, at: int, now: int)
    requires Tracked(p, initial, s, now) && at <= now && EvaluateCancellation(s) == Requested
    ensures Tracked(p, initial, CancelRequested(s, at, s.job.owner), now)
  {
    ExtendsTransitive(initial, s, CancelRequested(s, at, s.job.owner));
  }

  lemma TrackedInitially(p: Policy, s: PersistedState, now: int)
    requires Committed(p, s, now) && s.job.status == Running
    ensures Tracked(p, s, s, now)
  {}

  /** The variables of the loop, and what each case of its select does to them. */
  class Supervision {
    var cause: Cause
    var wait: ShellWait
    var failed: bool
    var waited: bool
    var captureDone: bool
    var cleanupStarted: bool
    var cleanupDone: bool
    var hardArmed: bool
    var graceArmed: bool
    var contextArmed: bool
    var pollArmed: bool
    var state: PersistedState
    var signals: seq<Signal>

    ghost function View(): Loop
      reads this
    {
      Loop(cause, wait, failed, waited, captureDone, cleanupStarted, cleanupDone, hardArmed, contextArmed, pollArmed, state)
    }

    ghost predicate Valid()
      reads this
    {
      && (graceArmed <==> cleanupStarted && !cleanupDone) && (waited ==> !hardArmed) && (cleanupDone ==> cleanupStarted)
      && signals == SignalsOf(View())
    }

    constructor (initial: PersistedState)
      ensures Valid() && View() == Start(initial)
    {
      cause, wait, state := Normal, ShellWait(None, None), initial;
      failed, waited, captureDone, cleanupStarted, cleanupDone := false, false, false, false, false;
      hardArmed, graceArmed, contextArmed, pollArmed := true, false, true, true;
      signals := [];
    }

    method StartCleanup()
      requires Valid()
      modifies this`cleanupStarted, this`graceArmed, this`signals
      ensures Valid() && View() == old(View()).(cleanupStarted := true)
    {
      if cleanupStarted { return; }
      cleanupStarted, graceArmed := true, true;
      signals := signals + [Term];
    }

    method OnOutput(p: Policy, initial: PersistedState, e: Event, ghost now: int)
      requires Valid() && e.Output? && Tracked(p, initial, state, now)
      modifies this
      ensures Valid() && View() == Received(old(View()), e) && Tracked(p, initial, state, now)
    {
      hide Tracked;
      if captureDone || cause == LimitCause || failed { return; }
      if e.appendFails {
        failed := true;
        StartCleanup();
        return;
      }
      var reached;
      state, reached := TakeOutput(p, initial, state, |e.data|, now);
      if reached && cause == Normal {
        cause, hardArmed := LimitCause, false;
        StartCleanup();
      }
    }

    method OnOutputEnd(e: Event)
      requires Valid() && e.OutputEnd?
      modifies this`captureDone, this`failed
      ensures Valid() && View() == Received(old(View()), e)
    {
      if captureDone { return; }
      captureDone := true;
      failed := failed || e.readFails;
    }

    method OnShellExit(e: Event)
      requires Valid() && e.ShellExit?
      modifies this
      ensures Valid() && View() == Received(old(View()), e)
    {
      if waited { return; }
      wait := if e.report.signal.None? then e.report.(signal := wait.signal) else e.report;
      waited := true;
      if e.lost && cause == Normal { failed := true; }
      hardArmed := false;
      StartCleanup();
    }

    method OnHardTimer()
      requires Valid()
      modifies this
      ensures Valid() && View() == Received(old(View()), HardTimer)
    {
      if !hardArmed { return; }
      hardArmed := false;
      if cause == Normal {
        cause := TimeoutCause;
        StartCleanup();
      }
    }

    method OnGraceTimer(e: Event)
      requires Valid() && e.GraceTimer?
      modifies this
      ensures Valid() && View() == Received(old(View()), e)
    {
      if !graceArmed { return; }
      graceArmed := false;
      signals := signals + [Kill];
      if wait.signal.None? && cause != Normal { wait := wait.(signal := Some(SIGKILL)); }
      failed := failed || e.reapFails;
      cleanupDone := true;
    }

    method OnContextDone()
      requires Valid()
      modifies this
      ensures Valid() && View() == Received(old(View()), ContextDone)
    {
      if !contextArmed { return; }
      contextArmed, failed := false, true;
      StartCleanup();
    }

    method OnPoll(e: Event)
      requires Valid() && e.Poll?
      modifies this
      ensures Valid() && View() == Received(old(View()), e)
    {
      if !pollArmed { return; }
      if e.loadFails {
        failed := true;
        StartCleanup();
      } else if state.cancellation.Some? {
        pollArmed, cause, hardArmed := false, CancelledCause, false;
        StartCleanup();
      }
    }

    /** Another process cancels; the loop is not told. */
    method OnCancelPersisted(p: Policy, initial: PersistedState, e: Event, ghost now: int)
      requires Valid() && e.CancelPersisted? && e.at <= now && Tracked(p, initial, state, now)
      modifies this`state
      ensures Valid() && View() == Received(old(View()), e) && Tracked(p, initial, state, now)
    {
      hide Tracked;
      if EvaluateCancellation(state) == Requested {
        CancellationTracked(p, initial, state, e.at, now);
        state := CancelRequested(state, e.at, state.job.owner);
      }
    }
  }

  /** Runs the loop over the events the select receives, in their order, and returns what its turns make of
      them. `After` is that turn by turn; the lemmas that follow say it in terms of the events alone. */
  method SuperviseShell(p: Policy, initial: PersistedState, events: seq<Event>, groupSignalFails: bool, ghost now: int)
    returns (result: Result, signals: seq<Signal>, state: PersistedState, ghost received: nat)
    requires Committed(p, initial, now) && initial.job.status == Running
    requires forall e :: e in events ==> GuardianReport(e) && (e.CancelPersisted? ==> e.at <= now)
    ensures var end := After(initial, events, |events|);
      result == ResultOf(end, groupSignalFails) && signals == SignalsOf(end) && state == end.state
    // of the events received, what was appended and what the canceller wrote is all that happened to the job
    ensures Ends(initial, events, received)
    ensures state == initial.(
      job := initial.job.(captured := Min(initial.job.captured + Counted(initial, events, received), initial.job.outputLimit)),
      cancellation := FirstCancellation(initial, events, received))
    ensures Tracked(p, initial, state, now)
  {
    hide Tracked, Received, SignalsOf, Counted, FirstCancellation;
    TrackedInitially(p, initial, now);
    var loop := new Supervision(initial);
    var next := 0;
    while next < |events| && (!loop.waited || !loop.captureDone || !loop.cleanupDone)
      invariant 0 <= next <= |events|
      invariant loop.Valid() && Tracked(p, initial, loop.state, now)
      invariant loop.View() == After(initial, events, next) && Live(initial, events, next)
    {
      var event := events[next];
      assert event in events;
      match event {
        case CancelPersisted(_) => loop.OnCancelPersisted(p, initial, event, now);
        case OutputEnd(_) => loop.OnOutputEnd(event);
        case Output(_, _) => loop.OnOutput(p, initial, event, now);
        case ShellExit(_, _) => loop.OnShellExit(event);
        case HardTimer => loop.OnHardTimer();
        case GraceTimer(_) => loop.OnGraceTimer(event);
        case ContextDone => loop.OnContextDone();
        case Poll(_) => loop.OnPoll(event);
      }
      UnchangedState(After(initial, events, next), event);
      next := next + 1;
    }
    if Over(After(initial, events, next)) { StaysOver(initial, events, next, |events|); }
    StateIsTheFold(initial, events, next);
    signals, state, received := loop.signals, loop.state, next;
    result := if !loop.waited || !loop.captureDone || !loop.cleanupDone then Pending
              else if loop.failed || groupSignalFails then Failed else Done(Outcome(loop.cause, loop.wait));
  }

  lemma UnchangedState(l: Loop, e: Event)
    ensures !e.Output? && !e.CancelPersisted? ==> Received(l, e).state == l.state
  {}

  lemma {:induction false} StaysOver(initial: PersistedState, events: seq<Event>, n: nat, m: nat)
    requires n <= m <= |events| && Over(After(initial, events, n))
    ensures After(initial, events, m) == After(initial, events, n)
    decreases m
  {
    if n < m { StaysOver(initial, events, n, m - 1); }
  }

  // ---------------------------------------------------------------- what the turns come to, in terms of the events

  /** The loop is not over before the first `n` events are received. */
  predicate Live(initial: PersistedState, events: seq<Event>, n: nat) {
    n <= |events| && (n == 0 || !Over(After(initial, events, n - 1)))
  }

  lemma Turn(initial: PersistedState, events: seq<Event>, n: nat)
    requires 0 < n && Live(initial, events, n)
    ensures Live(initial, events, n - 1)
    ensures After(initial, events, n) == Received(After(initial, events, n - 1), events[n - 1])
  {
    hide Received;
  }

  /** Where the loop stopped: everything after it went unreceived. */
  lemma {:induction false} Stop(initial: PersistedState, events: seq<Event>, n: nat) returns (k: nat)
    requires n <= |events|
    ensures k <= n && Live(initial, events, k) && After(initial, events, n) == After(initial, events, k)
    ensures k == n || Over(After(initial, events, k))
  {
    hide Received;
    if n == 0 || !Over(After(initial, events, n - 1)) {
      k := n;
    } else {
      k := Stop(initial, events, n - 1);
    }
  }

  predicate Exited(events: seq<Event>, n: nat) { exists i :: 0 <= i < n && i < |events| && events[i].ShellExit? }

  predicate Drained(events: seq<Event>, n: nat) { exists i :: 0 <= i < n && i < |events| && events[i].OutputEnd? }

  predicate TimedOut(events: seq<Event>, n: nat) { exists i :: 0 <= i < n && i < |events| && events[i].HardTimer? }

  /** The cause after the first `n` events. */
  function CauseAt(initial: PersistedState, events: seq<Event>, n: nat): Cause
    requires n <= |events|
  {
    After(initial, events, n).cause
  }

  /** An append fails at `i`: output is taken until its end and until the limit. */
  predicate LosesOutput(initial: PersistedState, events: seq<Event>, i: nat) {
    && i < |events| && events[i].Output? && events[i].appendFails
    && !Drained(events, i) && CauseAt(initial, events, i) != LimitCause
  }

  /** The event at `i` is a reason to clean up: the shell exited, the context ended, the state file could not be
      read while it was polled, an append failed, or the cause changed. */
  predicate CleansAt(initial: PersistedState, events: seq<Event>, i: nat) {
    && i < |events|
    && match events[i]
       case ShellExit(_, _) => true
       case ContextDone => true
       case Poll(loadFails) =>
         (loadFails && CauseAt(initial, events, i) != CancelledCause) || CauseAt(initial, events, i + 1) != CauseAt(initial, events, i)
       case Output(_, _) => LosesOutput(initial, events, i) || CauseAt(initial, events, i + 1) != CauseAt(initial, events, i)
       case _ => CauseAt(initial, events, i + 1) != CauseAt(initial, events, i)
  }

  predicate Triggered(initial: PersistedState, events: seq<Event>, n: nat) {
    exists i: nat :: i < n && CleansAt(initial, events, i)
  }

  /** The grace timer expires at `j`, after a reason to clean up. */
  predicate KillsAt(initial: PersistedState, events: seq<Event>, j: nat) {
    j < |events| && events[j].GraceTimer? && Triggered(initial, events, j)
  }

  predicate Killed(initial: PersistedState, events: seq<Event>, n: nat) {
    exists j: nat :: j < n && KillsAt(initial, events, j)
  }

  /** Another process had persisted a cancellation before event `n`. */
  predicate CancelSeen(initial: PersistedState, events: seq<Event>, n: nat) {
    initial.cancellation.Some? || exists i :: 0 <= i < n && i < |events| && events[i].CancelPersisted?
  }

  /** The poll at `i` finds a cancellation. */
  predicate NoticesAt(initial: PersistedState, events: seq<Event>, i: nat) {
    i < |events| && events[i].Poll? && !events[i].loadFails && CancelSeen(initial, events, i)
  }

  predicate Noticed(initial: PersistedState, events: seq<Event>, n: nat) {
    exists i: nat :: i < n && NoticesAt(initial, events, i)
  }

  /** The first cancellation persisted, by the canceller's rule. */
  function FirstCancellation(initial: PersistedState, events: seq<Event>, n: nat): Option<Cancellation>
    requires n <= |events|
  {
    if n == 0 then initial.cancellation
    else
      var before := FirstCancellation(initial, events, n - 1);
      if before.Some? || !events[n - 1].CancelPersisted? then before
      else Some(Cancellation(true, Max(events[n - 1].at, initial.job.createdAt), initial.job.owner))
  }

  /** The event at `i` brings an error that the loop keeps for its return. */
  predicate BreaksAt(initial: PersistedState, events: seq<Event>, i: nat) {
    && i < |events|
    && match events[i]
       case Output(_, _) => LosesOutput(initial, events, i)
       case OutputEnd(readFails) => readFails && !Drained(events, i)
       case ShellExit(_, lost) => lost && !Exited(events, i) && CauseAt(initial, events, i) == Normal
       case GraceTimer(reapFails) => reapFails && Triggered(initial, events, i) && !Killed(initial, events, i)
       case ContextDone => true
       case Poll(loadFails) => loadFails && CauseAt(initial, events, i) != CancelledCause
       case _ => false
  }

  predicate Broken(initial: PersistedState, events: seq<Event>, n: nat) {
    exists i: nat :: i < n && BreaksAt(initial, events, i)
  }

  /** The chunk at `i` is appended: it can be, output has not ended, no error has come, and the limit has not struck.
      Neither a timeout nor a cancellation stops the capture. */
  predicate CountsAt(initial: PersistedState, events: seq<Event>, i: nat) {
    && i < |events| && events[i].Output? && !events[i].appendFails
    && !Drained(events, i) && !Broken(initial, events, i) && CauseAt(initial, events, i) != LimitCause
  }

  /** The bytes of those chunks. */
  function Counted(initial: PersistedState, events: seq<Event>, n: nat): nat
    requires n <= |events|
  {
    if n == 0 then 0
    else Counted(initial, events, n - 1) + if CountsAt(initial, events, n - 1) then |events[n - 1].data| else 0
  }

  /** What the flags of the loop come to. */
  lemma {:induction false} FlagsHold(initial: PersistedState, events: seq<Event>, n: nat)
    requires Live(initial, events, n)
    ensures var l := After(initial, events, n);
      && (l.pollArmed <==> l.cause != CancelledCause)
      && (l.waited || !l.contextArmed || l.cleanupDone || (l.failed && !l.captureDone) ==> l.cleanupStarted)
      && (!l.contextArmed ==> l.failed)
  {
    if n > 0 {
      hide StateAfter, WaitAfter;
      Turn(initial, events, n);
      FlagsHold(initial, events, n - 1);
    }
  }

  lemma TriggersExactly(initial: PersistedState, events: seq<Event>, i: nat)
    requires Receives(initial, events, i) && (After(initial, events, i).captureDone <==> Drained(events, i))
    ensures After(initial, events, i).cleanupStarted || CleansAt(initial, events, i) <==> After(initial, events, i + 1).cleanupStarted
  {
    hide StateAfter, WaitAfter, Drained;
    LiveThere(initial, events, i);
    FlagsHold(initial, events, i);
    FlagsHold(initial, events, i + 1);
  }

  /** TERM is sent at the first reason to clean up, KILL at the first grace timer after it; exit and end of output
      are noticed when they come. */
  lemma {:induction false} ProgressIsInTheEvents(initial: PersistedState, events: seq<Event>, n: nat)
    requires Live(initial, events, n)
    ensures var l := After(initial, events, n);
      && (l.waited <==> Exited(events, n)) && (l.captureDone <==> Drained(events, n))
      && (l.cleanupStarted <==> Triggered(initial, events, n)) && (l.cleanupDone <==> Killed(initial, events, n))
      && SignalsOf(l) == (if Triggered(initial, events, n) then [Term] else []) + if Killed(initial, events, n) then [Kill] else []
  {
    if n > 0 {
      hide Strike, Errs, StateAfter, WaitAfter, Triggers, CleansAt;
      Turn(initial, events, n);
      ProgressIsInTheEvents(initial, events, n - 1);
      TriggersExactly(initial, events, n - 1);
      assert Triggered(initial, events, n) <==> Triggered(initial, events, n - 1) || CleansAt(initial, events, n - 1);
      assert KillsAt(initial, events, n - 1) <==> events[n - 1].GraceTimer? && Triggered(initial, events, n - 1);
    }
  }

  /** The loop keeps an error exactly when some received event brought one. */
  lemma {:induction false} FailedExactly(initial: PersistedState, events: seq<Event>, n: nat)
    requires Live(initial, events, n)
    ensures After(initial, events, n).failed <==> Broken(initial, events, n)
  {
    if n > 0 {
      hide Received, After, Errs, BreaksAt;
      Turn(initial, events, n);
      FailedExactly(initial, events, n - 1);
      BreaksExactly(initial, events, n - 1);
      assert Broken(initial, events, n) <==> Broken(initial, events, n - 1) || BreaksAt(initial, events, n - 1);
    }
  }

  lemma BreaksExactly(initial: PersistedState, events: seq<Event>, i: nat)
    requires Receives(initial, events, i)
    ensures After(initial, events, i).failed || BreaksAt(initial, events, i) <==> After(initial, events, i + 1).failed
  {
    hide StateAfter, WaitAfter, Strike, Triggers, Triggered, Killed, Drained, Exited;
    LiveThere(initial, events, i);
    FlagsHold(initial, events, i);
    ProgressIsInTheEvents(initial, events, i);
  }

  lemma AppendsExactly(initial: PersistedState, events: seq<Event>, i: nat)
    requires Receives(initial, events, i)
    ensures Appends(After(initial, events, i), events[i]) <==> CountsAt(initial, events, i)
  {
    hide Received;
    LiveThere(initial, events, i);
    ProgressIsInTheEvents(initial, events, i);
    FailedExactly(initial, events, i);
  }

  /** The loop returns exactly when exit, end of output and a grace timer after a trigger are all among the
      events; until then it is pending, and it returns only after TERM and KILL. */
  lemma PendingExactly(initial: PersistedState, events: seq<Event>, groupSignalFails: bool)
    ensures var end := After(initial, events, |events|);
      && (ResultOf(end, groupSignalFails).Pending? <==>
            !(Exited(events, |events|) && Drained(events, |events|) && Killed(initial, events, |events|)))
      && (!ResultOf(end, groupSignalFails).Pending? ==> SignalsOf(end) == [Term, Kill])
  {
    hide Received, Triggers, CleansAt, KillsAt;
    var k := Stop(initial, events, |events|);
    ProgressIsInTheEvents(initial, events, k);
    assert Killed(initial, events, k) ==> Killed(initial, events, |events|);
    KilledIsTriggered(initial, events, k);
  }

  lemma KilledIsTriggered(initial: PersistedState, events: seq<Event>, n: nat)
    ensures Killed(initial, events, n) ==> Triggered(initial, events, n)
  {
    hide CleansAt;
  }

  /** The job is the initial one with the bytes of the appended chunks counted, up to the limit, and the first
      cancellation. */
  lemma {:induction false} StateIsTheFold(initial: PersistedState, events: seq<Event>, n: nat)
    requires Live(initial, events, n) && initial.job.status == Running && initial.job.captured <= initial.job.outputLimit
    ensures After(initial, events, n).state == initial.(
      job := initial.job.(captured := Min(initial.job.captured + Counted(initial, events, n), initial.job.outputLimit)),
      cancellation := FirstCancellation(initial, events, n))
    ensures FirstCancellation(initial, events, n).Some? <==> CancelSeen(initial, events, n)
  {
    if n > 0 {
      hide Strike, Errs, WaitAfter, Triggers, Appends, CountsAt;
      Turn(initial, events, n);
      StateIsTheFold(initial, events, n - 1);
      AppendsExactly(initial, events, n - 1);
      assert CountsAt(initial, events, n - 1) ==> events[n - 1].Output? by { AppendedIsOutput(initial, events, n - 1); }
    }
  }

  lemma AppendedIsOutput(initial: PersistedState, events: seq<Event>, i: nat)
    ensures CountsAt(initial, events, i) ==> i < |events| && events[i].Output?
  {}

  /** A chunk that comes after a timeout or a noticed cancellation is captured like any other. */
  lemma LateOutputCounts(initial: PersistedState, events: seq<Event>, i: nat)
    requires Receives(initial, events, i) && initial.job.status == Running && initial.job.captured <= initial.job.outputLimit
    requires events[i].Output? && !events[i].appendFails && !Drained(events, i) && !Broken(initial, events, i)
    requires Noticed(initial, events, i) || !Filled(initial, events, i)
    ensures var before, after := After(initial, events, i).state.job, After(initial, events, i + 1).state.job;
      after.captured == Min(before.captured + |events[i].data|, before.outputLimit)
  {
    hide Received, Drained, Broken, Noticed, Filled, Expired;
    LiveThere(initial, events, i);
    CauseExactly(initial, events, i);
    StateIsTheFold(initial, events, i);
    StateIsTheFold(initial, events, i + 1);
  }

  /** The job is cancelled exactly when a poll found a cancellation, and is polled until then. */
  lemma {:induction false} CancelledExactly(initial: PersistedState, events: seq<Event>, n: nat)
    requires Live(initial, events, n) && initial.job.status == Running && initial.job.captured <= initial.job.outputLimit
    ensures After(initial, events, n).cause == CancelledCause <==> Noticed(initial, events, n)
    ensures After(initial, events, n).pollArmed <==> !Noticed(initial, events, n)
  {
    if n > 0 {
      hide Errs, WaitAfter, Triggers, Takes, StateAfter, CancelSeen, FirstCancellation;
      Turn(initial, events, n);
      CancelledExactly(initial, events, n - 1);
      StateIsTheFold(initial, events, n - 1);
      assert NoticesAt(initial, events, n - 1) <==>
        events[n - 1].Poll? && !events[n - 1].loadFails && CancelSeen(initial, events, n - 1);
    }
  }

  /** The hard timer at `i` fires while it is armed and nothing else has struck: no exit and no firing before. */
  predicate TimesOutAt(initial: PersistedState, events: seq<Event>, i: nat) {
    && i < |events| && events[i].HardTimer? && CauseAt(initial, events, i) == Normal
    && !Exited(events, i) && !TimedOut(events, i)
  }

  /** The chunk at `i` is appended and brings the count to the limit while nothing else has struck. */
  predicate FillsAt(initial: PersistedState, events: seq<Event>, i: nat) {
    && CountsAt(initial, events, i) && CauseAt(initial, events, i) == Normal
    && initial.job.captured + Counted(initial, events, i) + |events[i].data| >= initial.job.outputLimit
  }

  lemma {:induction false} HardTimerArmedExactly(initial: PersistedState, events: seq<Event>, n: nat)
    requires Live(initial, events, n)
    ensures After(initial, events, n).hardArmed <==>
      After(initial, events, n).cause == Normal && !Exited(events, n) && !TimedOut(events, n)
  {
    if n > 0 {
      hide Errs, WaitAfter, Triggers, Takes, StateAfter;
      Turn(initial, events, n);
      HardTimerArmedExactly(initial, events, n - 1);
    }
  }

  /** While nothing has struck, nothing was cut at the limit. */
  lemma {:induction false} UncutWhileNormal(initial: PersistedState, events: seq<Event>, n: nat)
    requires Live(initial, events, n) && initial.job.status == Running && initial.job.captured <= initial.job.outputLimit
    ensures After(initial, events, n).cause == Normal ==>
      && Counted(initial, events, n) == After(initial, events, n).state.job.captured - initial.job.captured
  {
    if n > 0 {
      hide Errs, WaitAfter, Triggers, Takes, CountsAt;
      Turn(initial, events, n);
      UncutWhileNormal(initial, events, n - 1);
      StateIsTheFold(initial, events, n - 1);
      AppendsExactly(initial, events, n - 1);
    }
  }

  /** What each received event strikes the job with, in terms of the events before it: the limit, the hard
      timeout, the cancellation, or nothing; and a strike is what becomes the cause. */
  lemma StrikeExactly(initial: PersistedState, events: seq<Event>, i: nat)
    requires Receives(initial, events, i) && initial.job.status == Running && initial.job.captured <= initial.job.outputLimit
    ensures var strike := Strike(After(initial, events, i), events[i]);
      && (strike == LimitCause <==> FillsAt(initial, events, i))
      && (strike == TimeoutCause <==> TimesOutAt(initial, events, i))
      && (strike == CancelledCause <==> NoticesAt(initial, events, i) && !Noticed(initial, events, i))
      && After(initial, events, i + 1).cause == if strike != Normal then strike else After(initial, events, i).cause
  {
    hide Errs, WaitAfter, Triggers, StateAfter, CancelSeen, FirstCancellation, Noticed, Takes, Drained, Broken;
    LiveThere(initial, events, i);
    UncutWhileNormal(initial, events, i);
    HardTimerArmedExactly(initial, events, i);
    CancelledExactly(initial, events, i);
    StateIsTheFold(initial, events, i);
    AppendsExactly(initial, events, i);
  }

  lemma LiveThere(initial: PersistedState, events: seq<Event>, i: nat)
    requires Receives(initial, events, i)
    ensures Live(initial, events, i)
  {
    hide Received;
  }

  predicate Filled(initial: PersistedState, events: seq<Event>, n: nat) {
    exists i: nat :: i < n && FillsAt(initial, events, i)
  }

  predicate Expired(initial: PersistedState, events: seq<Event>, n: nat) {
    exists i: nat :: i < n && TimesOutAt(initial, events, i)
  }

  /** The cause the loop returns: the cancellation if a poll noticed one, else the limit or the timeout,
      whichever struck, else normal. */
  lemma {:induction false} CauseExactly(initial: PersistedState, events: seq<Event>, n: nat)
    requires Live(initial, events, n) && initial.job.status == Running && initial.job.captured <= initial.job.outputLimit
    ensures var cause := After(initial, events, n).cause;
      && (cause == CancelledCause <==> Noticed(initial, events, n))
      && (cause == LimitCause <==> !Noticed(initial, events, n) && Filled(initial, events, n))
      && (cause == TimeoutCause <==> !Noticed(initial, events, n) && Expired(initial, events, n))
    ensures !(Filled(initial, events, n) && Expired(initial, events, n))
  {
    CancelledExactly(initial, events, n);
    if n > 0 {
      hide Received, Strike, FillsAt, TimesOutAt, Noticed, NoticesAt, Filled, Expired, After;
      Turn(initial, events, n);
      CauseExactly(initial, events, n - 1);
      StrikeExactly(initial, events, n - 1);
      StruckFromNormal(initial, events, n - 1);
      OneMoreStrike(initial, events, n - 1);
    }
  }

  lemma OneMoreStrike(initial: PersistedState, events: seq<Event>, n: nat)
    ensures Noticed(initial, events, n + 1) <==> Noticed(initial, events, n) || NoticesAt(initial, events, n)
    ensures Filled(initial, events, n + 1) <==> Filled(initial, events, n) || FillsAt(initial, events, n)
    ensures Expired(initial, events, n + 1) <==> Expired(initial, events, n) || TimesOutAt(initial, events, n)
  {
    hide NoticesAt, FillsAt, TimesOutAt;
  }

  /** Both limits strike only a job that nothing struck before. */
  lemma StruckFromNormal(initial: PersistedState, events: seq<Event>, i: nat)
    ensures FillsAt(initial, events, i) || TimesOutAt(initial, events, i) ==> After(initial, events, i).cause == Normal
    ensures !(FillsAt(initial, events, i) && TimesOutAt(initial, events, i))
  {
    hide Received;
  }

  /** The cause only rises: from normal to one limit, from any of them to cancelled. */
  predicate CauseMayBecome(a: Cause, b: Cause) {
    a == b || a == Normal || b == CancelledCause
  }

  lemma {:induction false} CauseOnlyRises(initial: PersistedState, events: seq<Event>, n: nat, m: nat)
    requires n <= m <= |events|
    ensures CauseMayBecome(After(initial, events, n).cause, After(initial, events, m).cause)
    decreases m
  {
    if n < m {
      hide Errs, WaitAfter, Triggers, Takes, StateAfter;
      CauseOnlyRises(initial, events, n, m - 1);
    }
  }

  /** The group was killed while the job was already struck. */
  predicate KilledForCause(initial: PersistedState, events: seq<Event>, n: nat) {
    exists j: nat :: j < n && KilledForCauseAt(initial, events, j)
  }

  predicate KilledForCauseAt(initial: PersistedState, events: seq<Event>, j: nat) {
    && KillsAt(initial, events, j) && !Killed(initial, events, j) && After(initial, events, j).cause != Normal
  }

  /** The first exit report among the first `n` events. */
  predicate FirstExit(events: seq<Event>, i: nat, n: nat) { i < n && i < |events| && events[i].ShellExit? && !Exited(events, i) }

  /** What the loop returns of the shell is what its exit reported: the exit code of the report, and its
      signal; only a report without one, of a group killed for a cause, reads as killed. */
  lemma {:induction false} WaitIsTheReport(initial: PersistedState, events: seq<Event>, n: nat)
    requires Live(initial, events, n)
    ensures var wait := After(initial, events, n).wait;
      var kill := if KilledForCause(initial, events, n) then Some(SIGKILL) else None;
      && (!Exited(events, n) ==> wait == ShellWait(None, kill))
      && forall i: nat :: FirstExit(events, i, n) ==>
           wait == ShellWait(events[i].report.exitCode, if events[i].report.signal.Some? then events[i].report.signal else kill)
  {
    if n > 0 {
      hide Strike, Errs, Triggers, StateAfter, KillsAt, Killed;
      Turn(initial, events, n);
      WaitIsTheReport(initial, events, n - 1);
      ProgressIsInTheEvents(initial, events, n - 1);
      KillNow(initial, events, n - 1);
      var i := n - 1;
      if FirstExit(events, i, n) { assert !Exited(events, i); }
      forall j: nat | FirstExit(events, j, n) ensures j == i || FirstExit(events, j, n - 1) {}
      if Exited(events, n - 1) { SomeFirstExit(events, n - 1); }
    }
  }

  lemma KillNow(initial: PersistedState, events: seq<Event>, j: nat)
    requires Live(initial, events, j) && j < |events|
    ensures KillsAt(initial, events, j) && !Killed(initial, events, j) <==>
      events[j].GraceTimer? && After(initial, events, j).cleanupStarted && !After(initial, events, j).cleanupDone
    ensures KilledForCause(initial, events, j) ==> Killed(initial, events, j)
    ensures KilledForCause(initial, events, j + 1) <==> KilledForCause(initial, events, j) || KilledForCauseAt(initial, events, j)
  {
    hide Received, Triggers;
    ProgressIsInTheEvents(initial, events, j);
  }

  lemma {:induction false} SomeFirstExit(events: seq<Event>, n: nat)
    requires Exited(events, n)
    ensures exists i: nat :: FirstExit(events, i, n)
  {
    if Exited(events, n - 1) {
      SomeFirstExit(events, n - 1);
      var i: nat :| FirstExit(events, i, n - 1);
      assert FirstExit(events, i, n);
    } else {
      assert FirstExit(events, n - 1, n);
    }
  }

  /** The loop ends after the first `k` events: it is over, or there are no more. */
  predicate Ends(initial: PersistedState, events: seq<Event>, k: nat) {
    Live(initial, events, k) && (k == |events| || Over(After(initial, events, k)))
  }

  /** What the loop returns says of the `k` events it received: the cause of an outcome, its exit code and its
      signal; and it fails exactly when one of them brought an error, or the group could not be signalled. */
  lemma DoneSays(initial: PersistedState, events: seq<Event>, groupSignalFails: bool, k: nat)
    requires initial.job.status == Running && initial.job.captured <= initial.job.outputLimit && Ends(initial, events, k)
    ensures var result := ResultOf(After(initial, events, |events|), groupSignalFails);
      && (result.Pending? <==> !(Exited(events, k) && Drained(events, k) && Killed(initial, events, k)))
      && (result.Failed? <==> !result.Pending? && (groupSignalFails || Broken(initial, events, k)))
      && (result.Done? ==>
            && (result.outcome.cause == CancelledCause <==> Noticed(initial, events, k))
            && (result.outcome.cause == LimitCause <==> !Noticed(initial, events, k) && Filled(initial, events, k))
            && (result.outcome.cause == TimeoutCause <==> !Noticed(initial, events, k) && Expired(initial, events, k))
            && exists i: nat :: FirstExit(events, i, k) && result.outcome.wait == ShellWait(events[i].report.exitCode,
                 if events[i].report.signal.Some? then events[i].report.signal
                 else if KilledForCause(initial, events, k) then Some(SIGKILL) else None))
  {
    hide Received, Filled, Expired, Noticed, Broken, KilledForCause;
    if k < |events| { StaysOver(initial, events, k, |events|); }
    CauseExactly(initial, events, k);
    FailedExactly(initial, events, k);
    WaitIsTheReport(initial, events, k);
    ProgressIsInTheEvents(initial, events, k);
    if Exited(events, k) { SomeFirstExit(events, k); }
  }

  /** A cause that the job was struck with holds of the job: what publication relies on. */
  lemma OutcomeIsSupervised(initial: PersistedState, events: seq<Event>, groupSignalFails: bool)
    requires initial.job.status == Running && initial.job.captured <= initial.job.outputLimit
    requires forall e :: e in events ==> GuardianReport(e)
    ensures var end := After(initial, events, |events|);
      var result := ResultOf(end, groupSignalFails);
      result.Done? ==> Supervised(end.state, result.outcome)
  {
    hide Received;
    var k := Stop(initial, events, |events|);
    BackedByState(initial, events, k);
  }

  lemma {:induction false} BackedByState(initial: PersistedState, events: seq<Event>, n: nat)
    requires Live(initial, events, n) && initial.job.captured <= initial.job.outputLimit
    requires forall e :: e in events ==> GuardianReport(e)
    ensures var l := After(initial, events, n);
      && l.state.job.captured <= l.state.job.outputLimit && SignalInRange(l.wait.signal)
      && (l.waited && l.cause == Normal && !l.failed && l.wait.signal.None? ==>
            l.wait.exitCode.Some? && 0 <= l.wait.exitCode.value <= 255)
      && (l.cause == CancelledCause ==> l.state.cancellation.Some?)
      && (l.cause == LimitCause ==> l.state.job.captured == l.state.job.outputLimit)
  {
    if n > 0 {
      Turn(initial, events, n);
      BackedByState(initial, events, n - 1);
      assert events[n - 1] in events;
    }
  }

  /** What the published result says about a job the loop returned normally: always a valid result, with
      the status of the cause unless a cancellation was persisted, and `output_limit` only at the limit. */
  lemma SupervisedOutcomePublishes(p: Policy, s: PersistedState, o: Outcome, now: int)
    requires Committed(p, s, now) && s.job.status == Running && Supervised(s, o)
    ensures var next := TerminalState(s, o, now);
      && next.Some? && Valid(p, next.value) && ValidProcessResult(next.value.result.value)
      && (next.value.job.status == OutputLimit ==> next.value.job.captured == next.value.job.outputLimit)
      && (next.value.job.status == OutputLimit <==> o.cause == LimitCause && s.cancellation.None?)
      && (next.value.job.status == HardTimeout <==> o.cause == TimeoutCause && s.cancellation.None?)
      && (next.value.job.status == Cancelled <==> s.cancellation.Some?)
      && (next.value.job.status == Succeeded <==>
            o.cause == Normal && s.cancellation.None? && o.wait.signal.None? && o.wait.exitCode == Some(0))
  {
    TerminalCommitted(p, s, o, now, s.job.captured);
  }

  /** Before publication: the shell is stopped with SIGTERM, and with SIGKILL at the grace timer or at
      the latest once it exited and its output ended. */
  method StopUnpublishedShell(events: seq<Event>) returns (stopped: bool, signals: seq<Signal>)
    ensures stopped <==> Exited(events, |events|) && Drained(events, |events|)
    ensures signals == if stopped || (exists e :: e in events && e.GraceTimer?) then [Term, Kill] else [Term]
  {
    signals := [Term];
    var waited, captureDone, killed := false, false, false;
    var next := 0;
    while next < |events| && (!waited || !captureDone)
      invariant 0 <= next <= |events|
      invariant signals == if killed then [Term, Kill] else [Term]
      invariant waited <==> Exited(events, next)
      invariant captureDone <==> Drained(events, next)
      invariant killed <==> exists i :: 0 <= i < next && events[i].GraceTimer?
    {
      match events[next] {
        case ShellExit(_, _) => waited := true;
        case OutputEnd(_) => captureDone := true;
        case GraceTimer(_) => if !killed { signals, killed := signals + [Kill], true; }
        case _ =>
      }
      next := next + 1;
    }
    stopped := waited && captureDone;
    if stopped && !killed { signals := signals + [Kill]; }
  }
}
