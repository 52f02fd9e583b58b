/** The wait loop: observe, re-arm the idle deadline on growth, and answer at the first of a terminal
    status, output idleness or the observation deadline. Times are in milliseconds. */
module WaitLoop {
  import opened JobState

  datatype Reason = TerminalReason | OutputIdle | ObservationTimeout

  datatype Reply =
    | Ready(reason: Reason, running: bool, chunk: Chunk, returnedAt: int)
    | InvalidTimes
    | InvalidCursor
    | ContextEnded

  datatype Times = Times(timeout: int, idle: int)

  /** A requested time of zero stands for that of the policy. */
  function Given(requested: Times, policy: Times): (given: Times)
    ensures requested.timeout != 0 ==> given.timeout == requested.timeout
    ensures requested.timeout == 0 ==> given.timeout == policy.timeout
    ensures requested.idle != 0 ==> given.idle == requested.idle
    ensures requested.idle == 0 ==> given.idle == policy.idle
  {
    Times(if requested.timeout == 0 then policy.timeout else requested.timeout,
          if requested.idle == 0 then policy.idle else requested.idle)
  }

  /** What a look at the job finds: `position` is where an omitted cursor starts. */
  datatype Sight = Sight(captured: int, running: bool, position: int)

  /** One pause of the loop: when it began, how long it was to last and when it was over. */
  datatype Pause = Pause(begun: int, length: int, over: int)

  /** The job as it is at each instant, whatever a waiting process does: the captured count, whether the
      job runs, the cursor the session has committed (-1 for none), and whether the caller has given up.
      Only the clock moves while a process waits. */
  class Scene {
    const limit: nat
    const outputAt: int -> int
    const runsAt: int -> bool
    const cursorAt: int -> int
    const givenUpAt: int -> bool
    var now: int
    ghost var pauses: seq<Pause>

    constructor (limit: nat, outputAt: int -> int, runsAt: int -> bool, cursorAt: int -> int, givenUpAt: int -> bool, now: int)
      ensures this.limit == limit && this.outputAt == outputAt && this.runsAt == runsAt
      ensures this.cursorAt == cursorAt && this.givenUpAt == givenUpAt && this.now == now && pauses == []
    {
      this.limit, this.outputAt, this.runsAt := limit, outputAt, runsAt;
      this.cursorAt, this.givenUpAt, this.now, pauses := cursorAt, givenUpAt, now, [];
    }

    /** Output only grows, up to the limit; cursors only move on, never past it; an end is for good, and
        an ended job has no more output. */
    ghost predicate Valid() {
      && (forall t :: 0 <= outputAt(t) <= limit && -1 <= cursorAt(t) <= outputAt(t))
      && (forall t, u :: t <= u ==> outputAt(t) <= outputAt(u))
      && (forall t, u :: t <= u ==> cursorAt(t) <= cursorAt(u))
      && (forall t, u :: t <= u && !runsAt(t) ==> !runsAt(u) && outputAt(u) == outputAt(t))
      && (forall t, u :: t <= u && givenUpAt(t) ==> givenUpAt(u))
    }

    /** Where an omitted cursor starts. */
    function Position(t: int): (start: int)
      ensures cursorAt(t) >= 0 ==> start == cursorAt(t)
      ensures cursorAt(t) < 0 ==> start == 0
    {
      if cursorAt(t) >= 0 then cursorAt(t) else 0
    }

    ghost predicate StoodStill(from: int, to: int, captured: int) {
      forall t :: from <= t <= to ==> outputAt(t) == captured
    }

    lemma Reached(t: int, u: int)
      requires Valid() && t <= u
      ensures 0 <= Position(t) <= outputAt(u) <= limit
    {}

    lemma Later(t: int, u: int)
      requires Valid() && t <= u
      ensures outputAt(t) <= outputAt(u) && Position(t) <= Position(u)
      ensures runsAt(u) ==> runsAt(t)
    {}

    /** Two looks that find the same count vouch for every instant between them. */
    lemma SameCountStoodStill(from: int, to: int)
      requires Valid() && outputAt(to) <= outputAt(from)
      ensures StoodStill(from, to, outputAt(to))
    {
      forall t | from <= t <= to ensures outputAt(t) == outputAt(to) {
        Later(from, t);
        Later(t, to);
      }
    }

    /** Some time passes, nobody knows how much. */
    method Elapse()
      modifies this`now
      ensures now >= old(now)
    {
      var elapsed: nat :| true;
      now := now + elapsed;
    }

    /** One look at the job, some time after the call. The look fails if the caller has given up; past the
        deadline it may be cut short, and a snapshot without the lock takes its place. */
    method Observe(deadline: int) returns (cut: bool, gaveUp: bool, seen: Sight, ghost at: int)
      modifies this`now
      ensures old(now) <= at <= now && seen == Sight(outputAt(at), runsAt(at), Position(at))
      ensures (gaveUp ==> givenUpAt(now)) && (cut ==> now >= deadline)
    {
      Elapse();
      cut := *;
      cut := cut && now >= deadline;
      Elapse();
      seen, at := Sight(outputAt(now), runsAt(now), Position(now)), now;
      Elapse();
      gaveUp := *;
      gaveUp := gaveUp && givenUpAt(now);
    }

    /** Waits for a timer or for the caller to give up, whichever comes first. */
    method Wait(length: nat) returns (givenUp: bool)
      modifies this
      ensures now >= old(now) && (givenUp ==> givenUpAt(now))
      ensures !givenUp ==> now >= old(now) + length
      ensures pauses == old(pauses) + [Pause(old(now), length, now)]
    {
      var was := now;
      Elapse();
      givenUp := givenUpAt(now);
      if !givenUp {
        Elapse();
        if now < was + length { now := was + length; }
      }
      pauses := pauses + [Pause(was, length, now)];
    }
  }

  /** What an answer at `returnedAt` is called. */
  function ReasonFor(running: bool, returnedAt: int, deadline: int): Reason {
    if !running then TerminalReason else if returnedAt >= deadline then ObservationTimeout else OutputIdle
  }

  function Answer(start: int, captured: int, running: bool, returnedAt: int, deadline: int): Reply {
    if 0 <= start <= captured
    then Ready(ReasonFor(running, returnedAt, deadline), running, Chunk(start, captured, captured, !running), returnedAt)
    else InvalidCursor
  }

  /** No pause is longer than the times left, nor shorter than a millisecond. */
  function PauseLength(poll: nat, left: int, idleLeft: int): (length: nat)
    ensures 1 <= length <= Max(Min(poll, left), 1) && (length == 1 || length <= idleLeft)
    ensures length == poll || length == left || length == idleLeft || (length == 1 && (poll < 1 || left < 1 || idleLeft < 1))
  {
    Max(Min(poll, Min(left, idleLeft)), 1)
  }

  /** Of the pauses since `before`, each began before the deadline and was no longer than the poll interval, the idle
      interval and the time left allow, and the job still ran at the end of each but the last; the cursor was resolved before them. */
  ghost predicate Patient(before: seq<Pause>, pauses: seq<Pause>, runsAt: int -> bool, deadline: int, idle: int, poll: nat, resolvedAt: int) {
    && before <= pauses
    && (forall i :: |before| <= i < |pauses| ==>
          && resolvedAt <= pauses[i].begun < deadline
          && pauses[i].length <= Max(Min(poll, deadline - pauses[i].begun), 1) && pauses[i].length <= Max(idle, 1)
          && (i + 1 < |pauses| ==> runsAt(pauses[i].over)))
  }

  lemma OneMorePause(before: seq<Pause>, pauses: seq<Pause>, runsAt: int -> bool, deadline: int, idle: int, poll: nat, resolvedAt: int, pause: Pause)
    requires Patient(before, pauses, runsAt, deadline, idle, poll, resolvedAt)
    requires before < pauses ==> runsAt(pauses[|pauses| - 1].over)
    requires resolvedAt <= pause.begun < deadline && pause.length <= Max(Min(poll, deadline - pause.begun), 1)
    requires pause.length <= Max(idle, 1)
    ensures Patient(before, pauses + [pause], runsAt, deadline, idle, poll, resolvedAt)
  {}

  lemma PauseWithinIdle(length: nat, idleLeft: int, idle: int)
    requires (length == 1 || length <= idleLeft) && idleLeft <= idle
    ensures length <= Max(idle, 1)
  {}

  lemma NoPauses(pauses: seq<Pause>, runsAt: int -> bool, deadline: int, idle: int, poll: nat, resolvedAt: int)
    ensures Patient(pauses, pauses, runsAt, deadline, idle, poll, resolvedAt)
  {}

  /** Within the call and up to the look, the output stood still for `idle` or longer. */
  ghost predicate IdleUntil(scene: Scene, called: int, idle: int, look: int) {
    exists from :: called <= from && from + idle <= look && scene.StoodStill(from, look, scene.outputAt(look))
  }

  lemma NoGrowthIsIdle(scene: Scene, called: int, armed: int, idle: int, look: int)
    requires scene.Valid() && called <= armed && armed + idle <= look && scene.outputAt(look) <= scene.outputAt(armed)
    ensures IdleUntil(scene, called, idle, look)
  {
    scene.SameCountStoodStill(armed, look);
  }

  /** The reply is the job as it was at the look, from `start` to the captured count: terminal iff not running
      iff end of file, a timeout past the deadline, idle after a quiet span within the call. */
  ghost predicate Tells(scene: Scene, called: int, times: Times, start: int, look: int, reply: Reply) {
    match reply
    case Ready(reason, running, chunk, returnedAt) =>
      && look <= returnedAt && running == scene.runsAt(look) && 0 <= start <= scene.outputAt(look)
      && chunk == Chunk(start, scene.outputAt(look), scene.outputAt(look), !running)
      && (reason == TerminalReason <==> !running)
      && (reason == ObservationTimeout ==> returnedAt >= called + times.timeout)
      && (reason == OutputIdle ==> returnedAt < called + times.timeout && IdleUntil(scene, called, times.idle, look))
    case InvalidCursor => !(0 <= start <= scene.outputAt(look))
    case _ => false
  }

  lemma AnswerTells(scene: Scene, called: int, times: Times, start: int, look: int, returnedAt: int)
    requires scene.Valid() && look <= returnedAt
    requires scene.runsAt(look) && returnedAt < called + times.timeout && 0 <= start <= scene.outputAt(look) ==>
      IdleUntil(scene, called, times.idle, look)
    ensures var reply := Answer(start, scene.outputAt(look), scene.runsAt(look), returnedAt, called + times.timeout);
      && Tells(scene, called, times, start, look, reply)
      && (if 0 <= start <= scene.outputAt(look) then reply.Ready? && reply.returnedAt == returnedAt else reply.InvalidCursor?)
  {
    hide IdleUntil, scene.Valid;
  }

  /** The first look of a turn, which resolves a cursor that was left out and refuses one that is out of range. If
      the observation's context has ended, the answer is the snapshot. */
  method LookOnce(scene: Scene, times: Times, deadline: int, cursor: Option<int>, ghost called: int)
    returns (answer: Option<Reply>, seen: Sight, resolved: int, ghost look: int)
    requires scene.Valid() && deadline == called + times.timeout
    modifies scene`now
    ensures old(scene.now) <= look <= scene.now && seen.captured == scene.outputAt(look) && seen.running == scene.runsAt(look)
    ensures resolved == if cursor.Some? then cursor.value else scene.Position(look)
    ensures (answer.None? ==> 0 <= resolved <= seen.captured) && (cursor.None? ==> answer != Some(InvalidCursor))
    ensures scene.outputAt(look) <= scene.limit
    ensures answer == Some(ContextEnded) ==> scene.givenUpAt(scene.now)
    ensures answer.Some? && answer.value != ContextEnded ==>
      && Tells(scene, called, times, resolved, look, answer.value)
      && (if 0 <= resolved <= scene.outputAt(look) then answer.value.Ready? && answer.value.returnedAt == scene.now else answer.value.InvalidCursor?)
  {
    hide *;
    var cut, gaveUp;
    cut, gaveUp, seen, look := scene.Observe(deadline);
    scene.Reached(look, look);
    resolved := if cursor.Some? then cursor.value else seen.position;
    answer := if gaveUp then Some(ContextEnded) else None;
    if !gaveUp && (cut || !(0 <= resolved <= seen.captured)) {
      AnswerTells(scene, called, times, resolved, look, scene.now);
      answer := Some(Answer(resolved, seen.captured, seen.running, scene.now, deadline));
    }
  }

  /** The look before an answer: if it finds the output grown after all, the wait goes on. */
  method LookAgain(scene: Scene, times: Times, deadline: int, idleDeadline: int, start: int, lastCaptured: int,
                   ghost called: int, ghost armed: int, ghost firstLook: int)
    returns (answer: Option<Reply>, seen: Sight, returnedAt: int, ghost look: int)
    requires scene.Valid() && deadline == called + times.timeout
    requires called <= armed && armed + times.idle <= idleDeadline && lastCaptured == scene.outputAt(armed)
    requires firstLook <= scene.now && (!scene.runsAt(firstLook) || scene.now >= deadline || scene.now >= idleDeadline)
    requires 0 <= start <= scene.outputAt(firstLook)
    modifies scene`now
    ensures old(scene.now) <= look <= returnedAt == scene.now && seen.captured == scene.outputAt(look)
    ensures answer.None? ==> seen.captured > lastCaptured
    ensures answer == Some(ContextEnded) ==> scene.givenUpAt(scene.now)
    ensures answer.Some? && answer.value != ContextEnded ==>
      Tells(scene, called, times, start, look, answer.value) && answer.value.Ready? && answer.value.returnedAt == returnedAt
    ensures start <= scene.outputAt(look) <= scene.limit
  {
    hide *;
    var cut, gaveUp;
    cut, gaveUp, seen, look := scene.Observe(deadline);
    returnedAt := scene.now;
    scene.Later(firstLook, look);
    scene.Reached(look, look);
    if gaveUp { return Some(ContextEnded), seen, returnedAt, look; }
    if seen.running && returnedAt < deadline {
      if seen.captured > lastCaptured { return None, seen, returnedAt, look; }
      NoGrowthIsIdle(scene, called, armed, times.idle, look);
    }
    AnswerTells(scene, called, times, start, look, returnedAt);
    answer := Some(Answer(start, seen.captured, seen.running, returnedAt, deadline));
  }

  /** The pause between two looks. */
  method Rest(scene: Scene, deadline: int, idleDeadline: int, idle: int, poll: nat, ghost before: seq<Pause>, ghost look: int, ghost resolvedAt: int)
    returns (gaveUp: bool)
    requires scene.Valid() && resolvedAt <= look <= scene.now < deadline && scene.runsAt(look)
    requires idleDeadline <= scene.now + idle
    requires scene.pauses != before ==> scene.pauses != [] && scene.pauses[|scene.pauses| - 1].over <= look
    requires Patient(before, scene.pauses, scene.runsAt, deadline, idle, poll, resolvedAt)
    modifies scene
    ensures scene.now >= old(scene.now) && (gaveUp ==> scene.givenUpAt(scene.now))
    ensures !gaveUp ==> scene.now > old(scene.now)
    ensures scene.pauses != [] && scene.pauses[|scene.pauses| - 1].over <= scene.now
    ensures Patient(before, scene.pauses, scene.runsAt, deadline, idle, poll, resolvedAt)
  {
    hide *;
    ghost var earlier := scene.pauses;
    var length := PauseLength(poll, deadline - scene.now, idleDeadline - scene.now);
    if before < earlier { scene.Later(earlier[|earlier| - 1].over, look); }
    gaveUp := scene.Wait(length);
    PauseWithinIdle(length, idleDeadline - scene.pauses[|earlier|].begun, idle);
    OneMorePause(before, earlier, scene.runsAt, deadline, idle, poll, resolvedAt, scene.pauses[|earlier|]);
  }

  /** One turn of the loop up to its pause. Without an answer it goes again at once if the look before an answer saw
      growth; the idle deadline is `idle` after the last growth seen. */
  method Turn(scene: Scene, times: Times, deadline: int, cursor: Option<int>, lastSeen: int, idleSince: int,
              ghost called: int, ghost armedBefore: int)
    returns (answer: Option<Reply>, again: bool, resolved: int, lastCaptured: int, idleDeadline: int,
             ghost firstLook: int, ghost look: int, ghost armed: int)
    requires scene.Valid() && deadline == called + times.timeout && called <= scene.now && -1 <= lastSeen <= scene.limit
    requires times.idle >= 1 && idleSince <= scene.now + times.idle
    requires lastSeen >= 0 ==> called <= armedBefore && armedBefore + times.idle <= idleSince && lastSeen == scene.outputAt(armedBefore)
    modifies scene`now
    ensures old(scene.now) <= firstLook <= look <= scene.now
    ensures resolved == if cursor.Some? then cursor.value else scene.Position(firstLook)
    ensures answer == Some(ContextEnded) ==> scene.givenUpAt(scene.now)
    ensures answer.Some? && answer.value != ContextEnded ==>
      && Tells(scene, called, times, resolved, look, answer.value)
      && (answer.value.InvalidCursor? ==> cursor.Some? && !(0 <= resolved <= scene.outputAt(firstLook)))
      && (answer.value.Ready? ==> answer.value.returnedAt <= scene.now) && !answer.value.InvalidTimes?
    ensures answer.None? ==>
      && 0 <= resolved <= scene.outputAt(look) && 0 <= lastCaptured <= scene.limit && lastSeen <= lastCaptured
      && called <= armed && armed + times.idle <= idleDeadline <= scene.now + times.idle && lastCaptured == scene.outputAt(armed)
      && if again then lastCaptured > lastSeen else scene.runsAt(look) && scene.now < deadline
  {
    hide *;
    var seen;
    answer, seen, resolved, firstLook := LookOnce(scene, times, deadline, cursor, called);
    again, lastCaptured, idleDeadline, look, armed := false, lastSeen, idleSince, firstLook, armedBefore;
    if answer.Some? { return; }
    var now := scene.now;
    if seen.captured > lastCaptured {
      lastCaptured, idleDeadline, armed := seen.captured, now + times.idle, firstLook;
    }
    if !seen.running || now >= deadline || now >= idleDeadline {
      answer, seen, now, look := LookAgain(scene, times, deadline, idleDeadline, resolved, lastCaptured, called, armed, firstLook);
      if answer.Some? { return; }
      again, lastCaptured, idleDeadline, armed := true, seen.captured, now + times.idle, look;
    }
  }

  /** The loop. It terminates for every behaviour of the scene: a pause brings the deadline nearer, and a repeat
      without a pause has seen the output grow. */
  method Watch(scene: Scene, times: Times, poll: nat, explicit: Option<int>)
    returns (reply: Reply, ghost look: int, ghost resolvedAt: int)
    requires scene.Valid() && times.timeout >= 1 && times.idle >= 1
    modifies scene
    ensures old(scene.now) <= look <= scene.now
    ensures !reply.InvalidTimes?
    ensures reply.ContextEnded? ==> scene.givenUpAt(scene.now)
    ensures reply.InvalidCursor? ==> explicit.Some?
    // it starts at the explicit cursor; without one at the session's cursor, or at 0 while the session has none
    ensures reply.Ready? || reply.InvalidCursor? ==>
      && old(scene.now) <= resolvedAt <= look
      && var start := if explicit.Some? then explicit.value
                      else if scene.cursorAt(resolvedAt) >= 0 then scene.cursorAt(resolvedAt) else 0;
         Tells(scene, old(scene.now), times, start, look, reply)
    ensures reply.Ready? ==> reply.returnedAt <= scene.now
    // the cursor is resolved, or refused, before the first pause
    ensures reply.InvalidCursor? ==> scene.pauses == old(scene.pauses)
    // it does not dawdle
    ensures Patient(old(scene.pauses), scene.pauses, scene.runsAt, old(scene.now) + times.timeout, times.idle, poll, resolvedAt)
  {
    hide *;
    look, resolvedAt := scene.now, scene.now;
    NoPauses(scene.pauses, scene.runsAt, scene.now + times.timeout, times.idle, poll, scene.now);
    var deadline := scene.now + times.timeout;
    var idleDeadline := scene.now + times.idle;
    var cursor := explicit;
    var lastCaptured := -1;
    ghost var called, before, armed := scene.now, scene.pauses, scene.now;
    while true
      invariant called <= resolvedAt <= look <= scene.now
      invariant explicit.Some? ==> cursor == explicit
      invariant explicit.None? && cursor.Some? ==> lastCaptured >= 0 && cursor.value == scene.Position(resolvedAt)
      invariant -1 <= lastCaptured <= scene.limit
      invariant lastCaptured >= 0 ==>
        called <= armed && armed + times.idle <= idleDeadline && lastCaptured == scene.outputAt(armed)
      invariant Patient(before, scene.pauses, scene.runsAt, deadline, times.idle, poll, resolvedAt)
      invariant idleDeadline <= scene.now + times.idle
      invariant scene.pauses != before ==>
        lastCaptured >= 0 && scene.pauses != [] && scene.pauses[|scene.pauses| - 1].over <= scene.now
      invariant lastCaptured >= 0 ==> cursor.Some? && 0 <= cursor.value <= scene.outputAt(look)
      decreases if scene.now < deadline then deadline - scene.now else 0, scene.limit - lastCaptured
    {
      var answer, again, resolved;
      ghost var firstLook, lastLook := look, look;
      answer, again, resolved, lastCaptured, idleDeadline, firstLook, look, armed :=
        Turn(scene, times, deadline, cursor, lastCaptured, idleDeadline, called, armed);
      scene.Later(lastLook, firstLook);
      if cursor.None? {
        resolvedAt := firstLook;
        NoPauses(scene.pauses, scene.runsAt, deadline, times.idle, poll, firstLook);
      }
      if answer.Some? { return answer.value, look, resolvedAt; }
      cursor := Some(resolved);
      if again { continue; }
      var gaveUp := Rest(scene, deadline, idleDeadline, times.idle, poll, before, look, resolvedAt);
      if gaveUp { return ContextEnded, look, resolvedAt; }
    }
  }

  /** The whole wait: the caller's context and the times are checked, then the loop runs. */
  method PrepareWait(scene: Scene, requested: Times, policy: Times, poll: nat, explicit: Option<int>)
    returns (reply: Reply, ghost look: int, ghost resolvedAt: int)
    requires scene.Valid()
    modifies scene
    ensures old(scene.now) <= look <= scene.now
    ensures scene.givenUpAt(old(scene.now)) ==> reply.ContextEnded?
    ensures reply.ContextEnded? ==> scene.givenUpAt(scene.now)
    ensures reply.InvalidTimes? <==>
      !scene.givenUpAt(old(scene.now)) && (Given(requested, policy).timeout < 1 || Given(requested, policy).idle < 1)
    ensures reply.InvalidCursor? ==> explicit.Some?
    // it starts at the explicit cursor; without one at the session's cursor, or at 0 while the session has none
    ensures reply.Ready? || reply.InvalidCursor? ==>
      && old(scene.now) <= resolvedAt <= look
      && var start := if explicit.Some? then explicit.value
                      else if scene.cursorAt(resolvedAt) >= 0 then scene.cursorAt(resolvedAt) else 0;
         Tells(scene, old(scene.now), Given(requested, policy), start, look, reply)
    ensures reply.Ready? ==> reply.returnedAt <= scene.now
    // the cursor is resolved, or refused, before the first pause
    ensures reply.InvalidCursor? ==> scene.pauses == old(scene.pauses)
    // it does not dawdle
    ensures Patient(old(scene.pauses), scene.pauses, scene.runsAt, old(scene.now) + Given(requested, policy).timeout,
                    Given(requested, policy).idle, poll, resolvedAt)
  {
    hide *;
    look, resolvedAt := scene.now, scene.now;
    NoPauses(scene.pauses, scene.runsAt, scene.now + Given(requested, policy).timeout, Given(requested, policy).idle, poll, scene.now);
    if scene.givenUpAt(scene.now) { return ContextEnded, look, resolvedAt; }
    var times := Given(requested, policy);
    if times.timeout < 1 || times.idle < 1 { return InvalidTimes, look, resolvedAt; }
    reply, look, resolvedAt := Watch(scene, times, poll, explicit);
  }
}
