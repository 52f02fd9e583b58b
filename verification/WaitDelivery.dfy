/** Delivery of one job's output to one session: waits overlap, responses get lost, commits get lost or
    come late. A wait resolves its start cursor, observes up to the captured count, writes its response,
    and then commits the end of the range. */
module WaitDelivery {
  import opened JobState
  import opened JobProtocol

  datatype Phase =
    | Resolved(start: int)
    | Observed(start: int, next: int)
    | Written(start: int, next: int)

  type WaitId = nat

  /** `cursor` is the session's persisted cursor, -1 while it has none; `delivered` is every byte
      position some written response carried. */
  datatype Delivery = Delivery(cursor: int, captured: nat, waits: map<WaitId, Phase>, delivered: set<int>)

  datatype Event =
    | Grow(count: nat)
    | Resolve(id: WaitId, explicit: Option<int>)
    | Observe(id: WaitId)
    | Write(id: WaitId)
    | Lose(id: WaitId)
    | Commit(id: WaitId)

  predicate Between(a: int, i: int, b: int) { a <= i < b }

  function Range(a: int, b: int): set<int> { set i | a <= i < b && Between(a, i, b) }

  function StartOf(d: Delivery, explicit: Option<int>): int {
    if explicit.Some? then explicit.value else if d.cursor >= 0 then d.cursor else 0
  }

  function Step(d: Delivery, e: Event): Option<Delivery> {
    match e
    case Grow(count) => Some(d.(captured := d.captured + count))
    case Resolve(id, explicit) =>
      var start := StartOf(d, explicit);
      if id in d.waits || !(0 <= start <= d.captured) then None else Some(d.(waits := d.waits[id := Resolved(start)]))
    case Observe(id) =>
      if id in d.waits && d.waits[id].Resolved?
      then Some(d.(waits := d.waits[id := Observed(d.waits[id].start, d.captured)])) else None
    case Write(id) =>
      if id in d.waits && d.waits[id].Observed?
      then Some(d.(waits := d.waits[id := Written(d.waits[id].start, d.waits[id].next)],
                   delivered := d.delivered + Range(d.waits[id].start, d.waits[id].next)))
      else None
    case Lose(id) => if id in d.waits then Some(d.(waits := d.waits - {id})) else None
    case Commit(id) =>
      if id in d.waits && d.waits[id].Written?
      then Some(d.(waits := d.waits - {id}, cursor := Max(d.cursor, d.waits[id].next))) else None
  }

  /** The committed cursor is what `commitWait` makes of the persisted observers. */
  lemma CommitIsMax(p: Policy, s: PersistedState, session: SessionId, chunk: Chunk, updatedAt: int, now: int, logSize: nat)
    requires Committed(p, s, now) && ChunkFits(s, chunk, updatedAt, now) && s.job.captured <= logSize
    ensures var r := WaitCommitted(p, s, session, chunk, updatedAt);
      CursorOf(if r.Replaced? then r.next.observers else s.observers, session)
        == Max(CursorOf(s.observers, session), chunk.next)
  {
    WaitCommitCommitted(p, s, session, chunk, updatedAt, now, logSize);
  }

  ghost predicate Covered(delivered: set<int>, c: int) {
    forall i :: 0 <= i < c ==> i in delivered
  }

  /** What a phase relies on: everything before its start was delivered, and its own range once written. */
  ghost predicate PhaseOk(d: Delivery, phase: Phase) {
    && 0 <= phase.start && Covered(d.delivered, phase.start)
    && (phase.Observed? ==> phase.start <= phase.next)
    && (phase.Written? ==> Covered(d.delivered, phase.next))
  }

  ghost predicate NoGap(d: Delivery) {
    Covered(d.delivered, d.cursor) && forall id :: id in d.waits ==> PhaseOk(d, d.waits[id])
  }

  /** The waits of a session that omits the cursor, and the `run` that starts at zero. */
  predicate Plain(e: Event) {
    e.Resolve? ==> e.explicit.None? || e.explicit.value == 0
  }

  lemma StepKeepsNoGap(d: Delivery, e: Event)
    requires NoGap(d) && Step(d, e).Some?
    requires e.Resolve? && e.explicit.Some? ==> Covered(d.delivered, e.explicit.value)
    requires forall id :: id in d.waits && d.waits[id].Resolved? ==> d.waits[id].start <= d.captured
    ensures NoGap(Step(d, e).value)
    ensures var v := Step(d, e).value;
      && d.captured <= v.captured && d.delivered <= v.delivered && d.cursor <= v.cursor
      && forall id :: id in v.waits && v.waits[id].Resolved? ==> v.waits[id].start <= v.captured
  {
    var v := Step(d, e).value;
    forall id | id in v.waits ensures PhaseOk(v, v.waits[id]) {
      if id in d.waits { assert PhaseOk(d, d.waits[id]); }
    }
    if e.Commit? { assert PhaseOk(d, d.waits[e.id]); }
  }

  ghost predicate IsRun(states: seq<Delivery>, events: seq<Event>) {
    && |states| == |events| + 1
    && states[0].cursor == -1 && states[0].waits == map[] && states[0].delivered == {}
    && forall i :: 0 <= i < |events| ==> Step(states[i], events[i]) == Some(states[i + 1])
  }

  /** A persisted cursor c means every byte in [0,c) was in a written response, whatever was lost,
      repeated or overlapped: redelivery, never a gap. */
  lemma {:induction false} PersistedCursorMeansDelivered(states: seq<Delivery>, events: seq<Event>, k: nat)
    requires IsRun(states, events) && k < |states|
    requires forall i :: 0 <= i < k ==> Plain(events[i])
    ensures NoGap(states[k])
    ensures forall id :: id in states[k].waits && states[k].waits[id].Resolved? ==> states[k].waits[id].start <= states[k].captured
  {
    if k > 0 {
      PersistedCursorMeansDelivered(states, events, k - 1);
      assert Plain(events[k - 1]) && Step(states[k - 1], events[k - 1]) == Some(states[k - 1 + 1]);
      StepKeepsNoGap(states[k - 1], events[k - 1]);
    }
  }

  /** One wait with an explicit cursor, run alone to its commit. */
  function WaitAlone(d: Delivery, id: WaitId, start: int): Delivery
    requires id !in d.waits && 0 <= start <= d.captured
  {
    d.(cursor := Max(d.cursor, d.captured), delivered := d.delivered + Range(start, d.captured))
  }

  /** Steps one after the other; None where one is not possible. */
  function Steps(d: Delivery, events: seq<Event>): Option<Delivery>
    decreases |events|
  {
    if events == [] then Some(d)
    else
      var next := Step(d, events[0]);
      if next.None? then None else Steps(next.value, events[1..])
  }

  function Serve(id: WaitId, start: int): seq<Event> { [Resolve(id, Some(start)), Observe(id), Write(id), Commit(id)] }

  lemma WaitAloneIsARun(d: Delivery, id: WaitId, start: int)
    requires id !in d.waits && 0 <= start <= d.captured
    ensures Steps(d, Serve(id, start)) == Some(WaitAlone(d, id, start))
  {
    var s := Serve(id, start);
    var d1 := Step(d, s[0]).value;
    var d2 := Step(d1, s[1]).value;
    var d3 := Step(d2, s[2]).value;
    assert d3.waits - {id} == d.waits;
    assert Step(d3, s[3]) == Some(WaitAlone(d, id, start));
    assert s[1..] == [s[1], s[2], s[3]] && s[1..][1..] == [s[2], s[3]] && s[1..][1..][1..] == [s[3]];
    assert s[1..][1..][1..][1..] == [];
    assert Steps(d3, [s[3]]) == Some(WaitAlone(d, id, start));
    assert Steps(d2, [s[2], s[3]]) == Some(WaitAlone(d, id, start));
    assert Steps(d1, [s[1], s[2], s[3]]) == Some(WaitAlone(d, id, start));
  }

  /** Output that is captured is there to be waited for. */
  lemma GrownOutputIsServed(d: Delivery, id: WaitId, count: nat)
    requires id !in d.waits
    ensures var g := Step(d, Grow(count));
      && g.Some? && g.value == d.(captured := d.captured + count)
      && Steps(g.value, Serve(id, d.captured)) ==
           Some(d.(captured := d.captured + count, cursor := Max(d.cursor, d.captured + count),
                   delivered := d.delivered + Range(d.captured, d.captured + count)))
  {
    hide Steps, Serve;
    WaitAloneIsARun(Step(d, Grow(count)).value, id, d.captured);
  }

  /** After an explicit wait that ran to its commit, everything before the persisted cursor was delivered
      exactly when what it skipped was delivered before. */
  lemma ExplicitCursorKeepsPromiseExactly(d: Delivery, id: WaitId, start: int)
    requires NoGap(d) && id !in d.waits && 0 <= start <= d.captured
    ensures var v := Steps(d, Serve(id, start));
      v.Some? && (Covered(v.value.delivered, v.value.cursor) <==> Covered(d.delivered, start))
  {
    hide Steps, Serve;
    WaitAloneIsARun(d, id, start);
    var v := WaitAlone(d, id, start);
    if Covered(v.delivered, v.cursor) {
      forall i | 0 <= i < start ensures i in d.delivered {
        assert i in v.delivered;
      }
    }
  }

  /** Skipping loses bytes: a fresh session that waits from 1 has byte 0 committed and never delivered. */
  lemma SkippingCursorLeavesAGap()
    ensures var v := Steps(Delivery(-1, 2, map[], {}), Serve(0, 1));
      v.Some? && v.value.cursor == 2 && 0 !in v.value.delivered
  {
    WaitAloneIsARun(Delivery(-1, 2, map[], {}), 0, 1);
  }

  // ---------------------------------------------------------------- serial waits

  /** The waits of one session one after the other: each resolves with no cursor while no other is under
      way, and none is lost once its response was written. Output may grow at any point, and a wait may
      be lost before it answers. */
  ghost predicate Serial(states: seq<Delivery>, events: seq<Event>) {
    && |states| == |events| + 1 && states[0].waits == map[] && -1 <= states[0].cursor <= states[0].captured
    && forall i :: 0 <= i < |events| ==>
      && Step(states[i], events[i]) == Some(states[i + 1])
      && (events[i].Resolve? ==> events[i].explicit.None? && states[i].waits == map[])
      && (events[i].Lose? && events[i].id in states[i].waits ==> !states[i].waits[events[i].id].Written?)
  }

  /** The byte ranges of the responses written in the first `n` steps, in their order. */
  function Ranges(states: seq<Delivery>, events: seq<Event>, n: nat): seq<(int, int)>
    requires n <= |events| && |states| == |events| + 1
  {
    if n == 0 then []
    else if events[n - 1].Write? && events[n - 1].id in states[n - 1].waits && states[n - 1].waits[events[n - 1].id].Observed?
    then Ranges(states, events, n - 1) + [(states[n - 1].waits[events[n - 1].id].start, states[n - 1].waits[events[n - 1].id].next)]
    else Ranges(states, events, n - 1)
  }

  function Position(d: Delivery): int { Max(d.cursor, 0) }

  /** Ranges that follow one another without gap or overlap, from `first` to `last`. */
  predicate Tile(ranges: seq<(int, int)>, first: int, last: int) {
    if ranges == [] then first == last
    else
      var n := |ranges| - 1;
      ranges[n].0 <= ranges[n].1 == last && Tile(ranges[..n], first, ranges[n].0)
  }

  /** A wait under way starts where the ranges ended; once written, it is the last of them. */
  ghost predicate PhaseFits(d: Delivery, phase: Phase, ranges: seq<(int, int)>, first: int) {
    if phase.Written? then
      && ranges != [] && ranges[|ranges| - 1] == (phase.start, phase.next)
      && Position(d) <= phase.next <= d.captured && Tile(ranges, first, phase.next)
    else
      && phase.start == Position(d) && Tile(ranges, first, Position(d))
      && (phase.Observed? ==> phase.start <= phase.next <= d.captured)
  }

  /** At most one wait is under way, and the ranges so far tile the output from the first cursor. */
  ghost predicate Underway(d: Delivery, ranges: seq<(int, int)>, first: int) {
    && -1 <= d.cursor <= d.captured
    && if d.waits == map[] then Tile(ranges, first, Position(d))
       else exists id :: d.waits.Keys == {id} && PhaseFits(d, d.waits[id], ranges, first)
  }

  lemma UnderwayStep(d: Delivery, e: Event, ranges: seq<(int, int)>, first: int)
    requires Underway(d, ranges, first) && Step(d, e).Some?
    requires e.Resolve? ==> e.explicit.None? && d.waits == map[]
    requires e.Lose? && e.id in d.waits ==> !d.waits[e.id].Written?
    ensures Underway(Step(d, e).value,
      if e.Write? then ranges + [(d.waits[e.id].start, d.waits[e.id].next)] else ranges, first)
  {
    var v := Step(d, e).value;
    if e.Resolve? {
      assert v.waits.Keys == {e.id} && PhaseFits(v, v.waits[e.id], ranges, first);
    } else if d.waits != map[] {
      hide Tile, Range;
      var id :| d.waits.Keys == {id} && PhaseFits(d, d.waits[id], ranges, first);
      if e.Grow? {
        assert PhaseFits(v, v.waits[id], ranges, first);
      } else {
        assert e.id == id;
        if e.Lose? || e.Commit? {
          assert v.waits == map[];
        } else if e.Observe? {
          assert v.waits.Keys == {id} && PhaseFits(v, v.waits[id], ranges, first);
        } else {
          TileGrows(ranges, first, d.waits[id].start, d.waits[id].next);
          assert v.waits.Keys == {id};
        }
      }
    }
  }

  lemma TileGrows(ranges: seq<(int, int)>, first: int, middle: int, last: int)
    requires Tile(ranges, first, middle) && middle <= last
    ensures Tile(ranges + [(middle, last)], first, last)
  {
    assert (ranges + [(middle, last)])[..|ranges|] == ranges;
  }

  lemma {:induction false} SerialUnderway(states: seq<Delivery>, events: seq<Event>, n: nat)
    requires Serial(states, events) && n <= |events|
    ensures Underway(states[n], Ranges(states, events, n), Position(states[0]))
  {
    if n > 0 {
      hide Underway, Step;
      SerialUnderway(states, events, n - 1);
      assert Step(states[n - 1], events[n - 1]) == Some(states[n - 1 + 1]);
      if events[n - 1].Write? { WriteIsObserved(states[n - 1], events[n - 1]); }
      UnderwayStep(states[n - 1], events[n - 1], Ranges(states, events, n - 1), Position(states[0]));
    } else {
      assert states[0].waits == map[];
    }
  }

  lemma WriteIsObserved(d: Delivery, e: Event)
    requires Step(d, e).Some? && e.Write?
    ensures e.id in d.waits && d.waits[e.id].Observed?
  {}

  function Pieces<T>(log: seq<T>, ranges: seq<(int, int)>): seq<T>
    requires forall i :: 0 <= i < |ranges| ==> 0 <= ranges[i].0 <= ranges[i].1 <= |log|
  {
    if ranges == [] then [] else Pieces(log, ranges[..|ranges| - 1]) + log[ranges[|ranges| - 1].0..ranges[|ranges| - 1].1]
  }

  lemma {:induction false} TilesInBounds(size: int, ranges: seq<(int, int)>, first: int, last: int)
    requires Tile(ranges, first, last) && 0 <= first && last <= size
    ensures first <= last && forall i :: 0 <= i < |ranges| ==> 0 <= ranges[i].0 <= ranges[i].1 <= size
    decreases |ranges|
  {
    if ranges != [] {
      var n := |ranges| - 1;
      TilesInBounds(size, ranges[..n], first, ranges[n].0);
      assert forall i :: 0 <= i < n ==> ranges[i] == ranges[..n][i];
    }
  }

  lemma SlicesJoin<T>(log: seq<T>, a: int, b: int, c: int)
    requires 0 <= a <= b <= c <= |log|
    ensures log[a..b] + log[b..c] == log[a..c]
  {}

  lemma {:induction false} TilesJoin<T>(log: seq<T>, ranges: seq<(int, int)>, first: int, last: int)
    requires Tile(ranges, first, last) && 0 <= first && last <= |log|
    ensures first <= last && forall i :: 0 <= i < |ranges| ==> 0 <= ranges[i].0 <= ranges[i].1 <= |log|
    ensures Pieces(log, ranges) == log[first..last]
    decreases |ranges|
  {
    TilesInBounds(|log|, ranges, first, last);
    if ranges != [] {
      var n := |ranges| - 1;
      TilesInBounds(|log|, ranges[..n], first, ranges[n].0);
      TilesJoin(log, ranges[..n], first, ranges[n].0);
      SlicesJoin(log, first, ranges[n].0, last);
    }
  }

  /** Serial waits that have all been committed tile the output: the byte ranges of their responses follow
      one another without gap or overlap from the first cursor to the last, the bytes there are exactly the
      output between the two, and those positions were delivered. */
  lemma SerialWaitsTileOutput<T>(log: seq<T>, states: seq<Delivery>, events: seq<Event>, n: nat)
    requires Serial(states, events) && n <= |events| && states[n].waits == map[] && |log| == states[n].captured
    ensures var ranges, first, last := Ranges(states, events, n), Position(states[0]), Position(states[n]);
      && Tile(ranges, first, last) && 0 <= first <= last <= |log|
      && (forall i :: 0 <= i < |ranges| ==> 0 <= ranges[i].0 <= ranges[i].1 <= |log|)
      && Pieces(log, ranges) == log[first..last]
  {
    SerialUnderway(states, events, n);
    TilesJoin(log, Ranges(states, events, n), Position(states[0]), Position(states[n]));
  }

  /** What a serial wait commits is everything captured when it looked: after it, the cursor is there. */
  lemma SerialCommitReachesCapture(states: seq<Delivery>, events: seq<Event>, n: nat)
    requires Serial(states, events) && n < |events| && events[n].Commit?
    ensures var ranges := Ranges(states, events, n);
      ranges != [] && Position(states[n + 1]) == states[n + 1].cursor == ranges[|ranges| - 1].1
  {
    SerialUnderway(states, events, n);
    assert Step(states[n], events[n]) == Some(states[n + 1]);
    assert events[n].id in states[n].waits && states[n].waits[events[n].id].Written?;
  }

  // ---------------------------------------------------------------- the store behind the model

  /** The model's cursor and count are those of a persisted state. */
  predicate Reflects(d: Delivery, s: PersistedState, session: SessionId) {
    d.cursor == CursorOf(s.observers, session) && d.captured == s.job.captured
  }

  /** A written response about to be committed: its range and stamp lie within the state. */
  predicate CommitsWithin(d: Delivery, id: WaitId, s: PersistedState, updatedAt: int, now: int) {
    && Step(d, Commit(id)).Some? && 0 <= d.waits[id].next <= s.job.captured
    && s.job.createdAt <= updatedAt <= Max(now, s.job.createdAt)
  }

  /** The model resolves and commits as the store does. */
  lemma StoreResolvesAndCommits(p: Policy, s: PersistedState, session: SessionId, d: Delivery, id: WaitId,
                                eof: bool, updatedAt: int, now: int, logSize: nat)
    requires Committed(p, s, now) && s.job.captured <= logSize && Reflects(d, s, session)
    ensures forall explicit :: StartOf(d, explicit) == ResolveStart(s, session, explicit)
    ensures CommitsWithin(d, id, s, updatedAt, now) ==>
      var chunk := Chunk(d.waits[id].start, d.waits[id].next, d.waits[id].next, eof);
      var r := WaitCommitted(p, s, session, chunk, updatedAt);
      && !r.Rejected?
      && Reflects(Step(d, Commit(id)).value, if r.Replaced? then r.next else s, session)
  {
    if CommitsWithin(d, id, s, updatedAt, now) {
      var chunk := Chunk(d.waits[id].start, d.waits[id].next, d.waits[id].next, eof);
      WaitCommitCommitted(p, s, session, chunk, updatedAt, now, logSize);
      CommitIsMax(p, s, session, chunk, updatedAt, now, logSize);
    }
  }
}
