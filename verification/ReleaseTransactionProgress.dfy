/** What the release transaction is for: an operation that nothing disturbs puts its output in place, a commit keeps
    it, and a cleanup that was asked for always gets to its end. */
module ReleaseTransactionProgress {
  import opened JobState
  import opened ReleaseTransaction

  function Play(w: World, actions: seq<Action>): Option<World>
    decreases |actions|
  {
    if actions == [] then Some(w)
    else
      var v := Step(w, actions[0]);
      if v.Some? then Play(v.value, actions[1..]) else None
  }

  lemma PlayThen(w: World, a: Action, u: World, rest: seq<Action>, v: World)
    requires Step(w, a) == Some(u) && Play(u, rest) == Some(v)
    ensures Play(w, [a] + rest) == Some(v)
  {
    hide Step;
    assert ([a] + rest)[1..] == rest;
  }

  lemma {:induction false} PlayOn(w: World, first: seq<Action>, u: World, second: seq<Action>, v: World)
    requires Play(w, first) == Some(u) && Play(u, second) == Some(v)
    ensures Play(w, first + second) == Some(v)
    decreases |first|
  {
    hide Step;
    if first == [] {
      assert first + second == second;
    } else {
      var next := Step(w, first[0]).value;
      PlayOn(next, first[1..], u, second, v);
      assert first + second == [first[0]] + (first[1..] + second);
      PlayThen(w, first[0], next, first[1..] + second, v);
    }
  }

  // ---------------------------------------------------------------- an undisturbed operation

  /** The next `n` steps of the operation; `stage` is what `mkdtemp` chooses. */
  function Goes(op: OpId, stage: nat, n: nat): seq<Action> { seq(n, _ => Go(op, stage)) }

  /** `w` with its newest operation at `op`; `leased` and `staged` say what it holds. */
  function Mid(w: World, output: Path, stage: nat, op: Op, leased: bool, staged: bool, disk: set<Path>, put: bool): World {
    w.(ops := w.ops + [op], owned := w.owned + {output}, disk := disk,
       published := if put then w.published + {output} else w.published,
       fields := Fields(w.fields.phase, if leased then w.fields.active + {|w.ops|} else w.fields.active,
                        w.fields.rollback + {output}, if staged then w.fields.temporary + {Stage(stage)} else w.fields.temporary))
  }

  ghost predicate CanBegin(w: World, output: Path, stage: nat) {
    && Inv(w) && w.fields.phase == Open && output.Output? && output !in w.disk
    && Stage(stage) !in w.disk && Stage(stage) !in w.fields.temporary
  }

  /** The last world of the operation: its output is in place and published, its stage is gone, it holds no lease,
      and the output is to be rolled back unless a commit follows. */
  function Put(w: World, output: Path, stage: nat): World {
    Mid(w, output, stage, Ended, false, false, w.disk + {output}, true)
  }

  lemma Prepares(w: World, kind: Kind, output: Path, stage: nat)
    requires CanBegin(w, output, stage)
    ensures var n, s := |w.ops|, Stage(stage);
      var w1, w2 := Mid(w, output, stage, Making(kind, output), true, false, w.disk, false),
                    Mid(w, output, stage, Made(kind, output, s), true, false, w.disk + {s}, false);
      var w3 := Mid(w, output, stage, Staged(kind, output, s), false, true, w.disk + {s}, false);
      && Step(w, Start(kind, output)) == Some(w1) && Step(w1, Go(n, stage)) == Some(w2) && Step(w2, Go(n, stage)) == Some(w3)
  {
    var n := |w.ops|;
    assert n !in w.fields.active;
    assert w.fields.active + {n} - {n} == w.fields.active;
    forall a: Op, b: Op ensures (w.ops + [a])[n := b] == w.ops + [b] {}
  }

  lemma PutsInPlace(w: World, kind: Kind, output: Path, stage: nat)
    requires CanBegin(w, output, stage)
    ensures var n, s := |w.ops|, Stage(stage);
      var w3 := Mid(w, output, stage, Staged(kind, output, s), false, true, w.disk + {s}, false);
      var w4 := Mid(w, output, stage, Writing(kind, output, s), true, true, w.disk + {s}, false);
      var w5 := Mid(w, output, stage, Renamed(kind, output, s), true, true,
                    (if kind == Directory then w.disk else w.disk + {s}) + {output}, true);
      && Step(w3, Go(n, stage)) == Some(w4) && Step(w4, Go(n, stage)) == Some(w5)
  {
    var n, s := |w.ops|, Stage(stage);
    assert w.disk + {s} - {s} == w.disk;
    forall a: Op, b: Op ensures (w.ops + [a])[n := b] == w.ops + [b] {}
  }

  lemma Finishes(w: World, kind: Kind, output: Path, stage: nat)
    requires CanBegin(w, output, stage)
    ensures var n, s := |w.ops|, Stage(stage);
      var w5 := Mid(w, output, stage, Renamed(kind, output, s), true, true,
                    (if kind == Directory then w.disk else w.disk + {s}) + {output}, true);
      Play(w5, Goes(n, stage, if kind == Directory then 1 else 2)) == Some(Put(w, output, stage))
  {
    var n, s := |w.ops|, Stage(stage);
    assert n !in w.fields.active;
    assert w.fields.active + {n} - {n} == w.fields.active && w.fields.temporary + {s} - {s} == w.fields.temporary;
    assert w.disk + {s} + {output} - {s} == w.disk + {output};
    forall a: Op, b: Op ensures (w.ops + [a])[n := b] == w.ops + [b] {}
    var w6 := Mid(w, output, stage, Emptied(output, s), true, true, w.disk + {output}, true);
    var w5 := Mid(w, output, stage, Renamed(kind, output, s), true, true,
                  (if kind == Directory then w.disk else w.disk + {s}) + {output}, true);
    var go := Go(n, stage);
    if kind == Directory {
      assert Step(w5, go) == Some(Put(w, output, stage));
      PlayThen(w5, go, Put(w, output, stage), [], Put(w, output, stage));
      assert Goes(n, stage, 1) == [go] + [];
    } else {
      assert Step(w5, go) == Some(w6);
      assert Step(w6, go) == Some(Put(w, output, stage));
      PlayThen(w6, go, Put(w, output, stage), [], Put(w, output, stage));
      PlayThen(w5, go, w6, [go] + [], Put(w, output, stage));
      assert Goes(n, stage, 2) == [go] + ([go] + []);
    }
  }

  /** An operation on a new output, in an open transaction and left alone, puts its output in place. */
  lemma OperationPublishes(w: World, kind: Kind, output: Path, stage: nat)
    requires CanBegin(w, output, stage)
    ensures Play(w, [Start(kind, output)] + Goes(|w.ops|, stage, if kind == Directory then 5 else 6)) == Some(Put(w, output, stage))
  {
    hide Step, CanBegin, Mid;
    Prepares(w, kind, output, stage);
    PutsInPlace(w, kind, output, stage);
    Finishes(w, kind, output, stage);
    var n, s := |w.ops|, Stage(stage);
    var go, v := Go(n, stage), Put(w, output, stage);
    var rest := Goes(n, stage, if kind == Directory then 1 else 2);
    var w1, w2 := Mid(w, output, stage, Making(kind, output), true, false, w.disk, false),
                  Mid(w, output, stage, Made(kind, output, s), true, false, w.disk + {s}, false);
    var w3, w4 := Mid(w, output, stage, Staged(kind, output, s), false, true, w.disk + {s}, false),
                  Mid(w, output, stage, Writing(kind, output, s), true, true, w.disk + {s}, false);
    var w5 := Mid(w, output, stage, Renamed(kind, output, s), true, true,
                  (if kind == Directory then w.disk else w.disk + {s}) + {output}, true);
    PlayThen(w4, go, w5, rest, v);
    PlayThen(w3, go, w4, [go] + rest, v);
    PlayThen(w2, go, w3, [go] + ([go] + rest), v);
    PlayThen(w1, go, w2, [go] + ([go] + ([go] + rest)), v);
    var all := [go] + ([go] + ([go] + ([go] + rest)));
    PlayThen(w, Start(kind, output), w1, all, v);
    assert all == Goes(n, stage, if kind == Directory then 5 else 6);
  }

  // ---------------------------------------------------------------- commit and cleanup

  /** A commit takes effect exactly while the transaction is open, and then nothing is rolled back any more. */
  lemma CommitsExactly(w: World)
    ensures var v := Step(w, Commit);
      && v.Some?
      && (w.fields.phase == Open ==>
            v.value == w.(committed := true, fields := w.fields.(phase := Phase.Committed, rollback := {})))
      && (w.fields.phase != Open ==> v.value == w)
  {}

  /** A close request closes an open transaction to new leases and to the commit, and does nothing else. */
  lemma ClosesExactly(w: World)
    ensures Step(w, RequestClose) == Some(w.(fields := w.fields.(phase := if w.fields.phase == Open then Closing else w.fields.phase)))
  {}

  /** The rename is refused exactly where its stage is gone, or a directory would replace something. */
  lemma RenamesExactly(w: World, op: OpId, stage: nat)
    requires op < |w.ops| && w.ops[op].Writing?
    ensures Step(w, Go(op, stage)).Some? <==>
      w.ops[op].stage in w.disk && (w.ops[op].kind == File || w.ops[op].output !in w.disk)
  {}

  /** Asking for the cleanup closes the transaction, once, and fixes whether it will roll back: unless it committed. */
  lemma CleansExactly(w: World)
    ensures var v := Step(w, Clean);
      && v.Some?
      && (w.cleanup.Idle? ==>
            && v.value.cleanup == Waiting(w.fields.phase != Phase.Committed)
            && v.value.fields == w.fields.(phase := if w.fields.phase == Open then Closing else w.fields.phase)
            && v.value.disk == w.disk && v.value.ops == w.ops)
      && (!w.cleanup.Idle? ==> v.value == w)
  {}

  /** Every lease is given back by one step of its operation, whether it works or fails. */
  lemma LeaseEnds(w: World, op: OpId) returns (a: Action, v: World)
    requires Inv(w) && op in w.fields.active
    ensures a == Go(op, 0) || a == Fail(op)
    ensures Step(w, a) == Some(v) && Inv(v) && v.fields.active == w.fields.active - {op} && v.cleanup == w.cleanup
  {
    var o := w.ops[op];
    a := if o.Made? || o.Emptied? || (o.Renamed? && o.kind == Directory) then Go(op, 0) else Fail(op);
    v := Step(w, a).value;
    StepInv(w, a);
  }

  lemma {:induction false} LeasesEnd(w: World) returns (actions: seq<Action>, v: World)
    requires Inv(w)
    ensures Play(w, actions) == Some(v) && Inv(v) && v.fields.active == {} && v.cleanup == w.cleanup
    decreases |w.fields.active|
  {
    hide Inv, Step;
    if w.fields.active == {} {
      actions, v := [], w;
    } else {
      var op :| op in w.fields.active;
      var a, u := LeaseEnds(w, op);
      assert |w.fields.active - {op}| == |w.fields.active| - 1;
      var rest;
      rest, v := LeasesEnd(u);
      PlayThen(w, a, u, rest, v);
      actions := [a] + rest;
    }
  }

  lemma {:induction false} RemovesAll(w: World) returns (actions: seq<Action>, v: World)
    requires Inv(w) && w.cleanup.Removing?
    ensures Play(w, actions) == Some(v) && Inv(v) && v.cleanup == Removing({})
    decreases |w.cleanup.todo|
  {
    hide Inv;
    if w.cleanup.todo == {} {
      actions, v := [], w;
    } else {
      var path :| path in w.cleanup.todo;
      var u := Step(w, Remove(path)).value;
      StepInv(w, Remove(path));
      assert |w.cleanup.todo - {path}| == |w.cleanup.todo| - 1;
      var rest;
      rest, v := RemovesAll(u);
      PlayThen(w, Remove(path), u, rest, v);
      actions := [Remove(path)] + rest;
    }
  }

  /** From every reachable world in which it was asked for, the cleanup can be run to its end; what is left then is
      what `CleanupLeavesAllOrNothing` says. */
  lemma CleanupCompletes(w: World) returns (actions: seq<Action>, v: World)
    requires Inv(w) && !w.cleanup.Idle?
    ensures Play(w, actions) == Some(v) && Inv(v) && v.cleanup.Resolved?
  {
    hide Inv;
    if w.cleanup.Resolved? {
      actions, v := [], w;
    } else if w.cleanup.Removing? {
      actions, v := RemovedResolves(w);
    } else {
      var first, u := LeasesEnd(w);
      var x := Step(u, Settle).value;
      StepInv(u, Settle);
      var rest;
      rest, v := RemovedResolves(x);
      PlayThen(u, Settle, x, rest, v);
      PlayOn(w, first, u, [Settle] + rest, v);
      actions := first + ([Settle] + rest);
    }
  }

  lemma RemovedResolves(w: World) returns (actions: seq<Action>, v: World)
    requires Inv(w) && w.cleanup.Removing?
    ensures Play(w, actions) == Some(v) && Inv(v) && v.cleanup.Resolved?
  {
    hide Inv;
    var first, u := RemovesAll(w);
    v := Step(u, Settle).value;
    StepInv(u, Settle);
    PlayThen(u, Settle, v, [], v);
    PlayOn(w, first, u, [Settle] + [], v);
    actions := first + ([Settle] + []);
  }
}
