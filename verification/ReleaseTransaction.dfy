/** The release transaction: operations that stage, write and rename under mutation leases, a commit, and
    a cleanup that waits for the leases and removes what is left. */
module ReleaseTransaction {
  import opened JobState

  /** Outputs are named by the caller, stages by `mkdtemp`. */
  datatype Path = Output(name: string) | Stage(number: nat)

  type OpId = nat

  datatype Phase = Open | Closing | Committed | Closed

  /** The fields of the transaction object. A lease is named by the operation that holds it. */
  datatype Fields = Fields(phase: Phase, active: set<OpId>, rollback: set<Path>, temporary: set<Path>)

  datatype Kind = Directory | File

  /** Where an operation stands between its awaits. */
  datatype Op =
    | Making(kind: Kind, output: Path)                    // createStage: lease held, directory not made yet
    | Made(kind: Kind, output: Path, stage: Path)         // the directory is on disk, not owned yet
    | Staged(kind: Kind, output: Path, stage: Path)       // between the two leases
    | Writing(kind: Kind, output: Path, stage: Path)      // second lease
    | Renamed(kind: Kind, output: Path, stage: Path)      // the output is in place
    | Emptied(output: Path, stage: Path)                  // a file's stage directory is removed again
    | Ended

  /** The single cleanup: not asked for, waiting for leases, removing, resolved. */
  datatype Cleanup = Idle | Waiting(rollback: bool) | Removing(todo: set<Path>) | Resolved(rollback: bool)

  /** `disk` holds the paths that exist. History: what existed at first, what was committed, what was
      renamed into place, and every output a lease took into ownership. */
  datatype World = World(fields: Fields, ops: seq<Op>, cleanup: Cleanup, disk: set<Path>,
                         initial: set<Path>, committed: bool, published: set<Path>, owned: set<Path>)

  datatype Action =
    | Start(kind: Kind, output: Path)
    | Go(op: OpId, stage: nat)          // the operation's next step; `stage` is what mkdtemp would choose
    | Fail(op: OpId)                    // its pending file operation fails
    | RequestClose | Commit | Clean | Settle | Remove(path: Path)

  // ---------------------------------------------------------------- the transaction object

  /** None: beginning a mutation throws. */
  function Begun(f: Fields, op: OpId, rollback: Option<Path>): Option<Fields> {
    if f.phase != Open then None
    else Some(f.(active := f.active + {op}, rollback := if rollback.Some? then f.rollback + {rollback.value} else f.rollback))
  }

  function Released(f: Fields, op: OpId): Fields { f.(active := f.active - {op}) }

  function CloseRequested(f: Fields): Fields { if f.phase == Open then f.(phase := Closing) else f }

  /** None: commit throws. */
  function CommittedFields(f: Fields): Option<Fields> {
    if f.phase != Open then None else Some(f.(rollback := {}, phase := Committed))
  }

  // ---------------------------------------------------------------- the steps

  function SetOp(w: World, op: OpId, next: Op): World
    requires op < |w.ops|
  {
    w.(ops := w.ops[op := next])
  }

  /** The lease is released whatever happened. */
  function EndOp(w: World, op: OpId): World
    requires op < |w.ops|
  {
    SetOp(w, op, Ended).(fields := Released(w.fields, op))
  }

  /** Both operations start alike: an existing output is refused, a lease takes the output into ownership. */
  function StartStep(w: World, kind: Kind, output: Path): World {
    var begun := Begun(w.fields, |w.ops|, Some(output));
    if !output.Output? || output in w.disk || begun.None? then w
    else w.(fields := begun.value, ops := w.ops + [Making(kind, output)], owned := w.owned + {output})
  }

  function GoStep(w: World, op: OpId, candidate: nat): Option<World>
    requires op < |w.ops|
  {
    match w.ops[op]
    case Making(kind, output) =>
      if Stage(candidate) in w.disk + w.fields.temporary then None
      else Some(SetOp(w, op, Made(kind, output, Stage(candidate))).(disk := w.disk + {Stage(candidate)}))
    case Made(kind, output, stage) =>
      Some(SetOp(w, op, Staged(kind, output, stage)).(fields := Released(w.fields.(temporary := w.fields.temporary + {stage}), op)))
    case Staged(kind, output, stage) =>
      var begun := Begun(w.fields, op, None);
      Some(if begun.None? then SetOp(w, op, Ended) else SetOp(w, op, Writing(kind, output, stage)).(fields := begun.value))
    case Writing(kind, output, stage) =>
      // a directory cannot be renamed over another one; a file replaces
      if stage !in w.disk || (kind == Directory && output in w.disk) then None
      else Some(SetOp(w, op, Renamed(kind, output, stage)).(
                  disk := (if kind == Directory then w.disk - {stage} else w.disk) + {output}, published := w.published + {output}))
    case Renamed(kind, output, stage) =>
      if kind == Directory then Some(EndOp(w, op).(fields := Released(w.fields.(temporary := w.fields.temporary - {stage}), op)))
      else Some(SetOp(w, op, Emptied(output, stage)).(disk := w.disk - {stage}))
    case Emptied(output, stage) =>
      Some(EndOp(w, op).(fields := Released(w.fields.(temporary := w.fields.temporary - {stage}), op)))
    case Ended => None
  }

  /** What `#clean` will remove, read from the fields when the leases are gone. */
  function Doomed(f: Fields, rollback: bool): set<Path> {
    if rollback then f.temporary + f.rollback else f.temporary
  }

  function Step(w: World, a: Action): Option<World> {
    match a
    case Start(kind, output) => Some(StartStep(w, kind, output))
    case Go(op, stage) => if op < |w.ops| then GoStep(w, op, stage) else None
    case Fail(op) =>
      if op < |w.ops| && !w.ops[op].Ended? && !w.ops[op].Made? && !w.ops[op].Emptied? && !(w.ops[op].Renamed? && w.ops[op].kind == Directory)
      then Some(EndOp(w, op)) else None
    case RequestClose => Some(w.(fields := CloseRequested(w.fields)))
    case Commit =>
      var next := CommittedFields(w.fields);
      if next.None? then Some(w) else Some(w.(fields := next.value, committed := true))
    case Clean =>
      if w.cleanup != Idle then Some(w)
      else Some(w.(cleanup := Waiting(w.fields.phase != Committed), fields := CloseRequested(w.fields)))
    case Settle =>
      if w.cleanup.Waiting? && w.fields.active == {} then
        Some(w.(cleanup := Removing(Doomed(w.fields, w.cleanup.rollback))))
      else if w.cleanup == Removing({}) then
        Some(w.(cleanup := Resolved(!w.committed), fields := Fields(Closed, w.fields.active, {}, {})))
      else None
    case Remove(path) =>
      if w.cleanup.Removing? && path in w.cleanup.todo
      then Some(w.(cleanup := Removing(w.cleanup.todo - {path}), disk := w.disk - {path})) else None
  }

  // ---------------------------------------------------------------- the invariant

  predicate Holds(op: Op) { op.Making? || op.Made? || op.Writing? || op.Renamed? || op.Emptied? }

  ghost predicate OpOk(w: World, op: Op) {
    && (!op.Ended? ==> op.output.Output? && op.output in w.owned)
    && (!op.Ended? && !op.Making? ==> op.stage.Stage? && op.stage !in w.initial)
    && (op.Staged? || op.Writing? || op.Renamed? || op.Emptied? ==> op.stage in w.fields.temporary || w.cleanup.Resolved?)
    && (op.Renamed? && op.kind == Directory ==> op.stage !in w.disk)
    && (op.Emptied? ==> op.stage !in w.disk)
    && (op.Made? ==> op.stage in w.disk)
  }

  ghost predicate OpsOk(w: World) {
    && (forall i :: 0 <= i < |w.ops| ==> OpOk(w, w.ops[i]))
    && (forall i :: i in w.fields.active <==> 0 <= i < |w.ops| && Holds(w.ops[i]))
    && (forall i, j :: 0 <= i < j < |w.ops| && HasStage(w.ops[i]) && HasStage(w.ops[j]) ==> w.ops[i].stage != w.ops[j].stage)
  }

  predicate HasStage(op: Op) { op.Made? || op.Staged? || op.Writing? || op.Renamed? || op.Emptied? }

  predicate MadeStage(w: World, p: Path) { exists i :: 0 <= i < |w.ops| && w.ops[i].Made? && w.ops[i].stage == p }

  /** Everything on disk that was not there before is a published output or a stage that is owned, or will be. */
  ghost predicate DiskOk(w: World) {
    && w.initial <= w.disk && w.initial !! w.owned && w.initial !! w.fields.temporary && w.published <= w.owned
    && (forall p :: p in w.owned ==> p.Output?) && (forall p :: p in w.fields.temporary ==> p.Stage?)
    && (forall p :: p in w.disk && p !in w.initial ==>
          if p.Output? then p in w.published else p in w.fields.temporary || MadeStage(w, p))
    && (w.committed || w.cleanup.Idle? || w.cleanup.Waiting? ==> w.published <= w.disk)
  }

  ghost predicate FieldsOk(w: World) {
    && (w.committed ==> w.fields.phase == Committed || w.cleanup.Resolved?)
    && (w.fields.phase == Committed ==> w.committed)
    && w.fields.rollback == (if w.committed || w.cleanup.Resolved? then {} else w.owned)
  }

  ghost predicate CleanupOk(w: World) {
    match w.cleanup
    case Idle => w.fields.phase != Closed
    case Waiting(rollback) => w.fields.phase != Open && w.fields.phase != Closed && rollback == !w.committed
    case Removing(todo) =>
      && w.fields.phase != Open && w.fields.phase != Closed && w.fields.active == {}
      && todo <= Doomed(w.fields, !w.committed)
      && forall p :: p in Doomed(w.fields, !w.committed) && p !in todo ==> p !in w.disk
    case Resolved(rollback) =>
      && w.fields.phase == Closed && w.fields.active == {} && rollback == !w.committed
      && (rollback ==> w.owned !! w.disk) && forall p :: p in w.disk && p.Stage? ==> p in w.initial
  }

  ghost predicate Inv(w: World) {
    OpsOk(w) && DiskOk(w) && FieldsOk(w) && CleanupOk(w)
  }

  function InitialWorld(initial: set<Path>): World {
    World(Fields(Open, {}, {}, {}), [], Idle, initial, initial, false, {}, {})
  }

  lemma StartInv(w: World, kind: Kind, output: Path)
    requires Inv(w)
    ensures Inv(StartStep(w, kind, output))
  {
    var v := StartStep(w, kind, output);
    assert forall p :: MadeStage(w, p) ==> MadeStage(v, p) by { MadeStays(w, v); }
  }

  /** More operations, or the same: stages made are still made. */
  lemma MadeStays(w: World, v: World)
    requires w.ops <= v.ops
    ensures forall p :: MadeStage(w, p) ==> MadeStage(v, p)
  {
    forall p | MadeStage(w, p) ensures MadeStage(v, p) {
      var i :| 0 <= i < |w.ops| && w.ops[i].Made? && w.ops[i].stage == p;
      assert v.ops[i] == w.ops[i];
    }
  }

  lemma MadeElsewhere(w: World, v: World, op: OpId)
    requires op < |w.ops| == |v.ops| && v.ops == w.ops[op := v.ops[op]]
    ensures forall p :: MadeStage(w, p) && !(w.ops[op].Made? && w.ops[op].stage == p) ==> MadeStage(v, p)
  {
    forall p | MadeStage(w, p) && !(w.ops[op].Made? && w.ops[op].stage == p) ensures MadeStage(v, p) {
      var i :| 0 <= i < |w.ops| && w.ops[i].Made? && w.ops[i].stage == p;
      assert v.ops[i] == w.ops[i];
    }
  }

  lemma MakingInv(w: World, op: OpId, candidate: nat)
    requires Inv(w) && op < |w.ops| && w.ops[op].Making? && GoStep(w, op, candidate).Some?
    ensures Inv(GoStep(w, op, candidate).value)
  {
    var v := GoStep(w, op, candidate).value;
    assert op in w.fields.active;
    MadeElsewhere(w, v, op);
    assert v.ops[op].Made? && v.ops[op].stage == Stage(candidate);
    assert MadeStage(v, Stage(candidate));
  }

  lemma MadeInv(w: World, op: OpId, candidate: nat)
    requires Inv(w) && op < |w.ops| && w.ops[op].Made?
    ensures Inv(GoStep(w, op, candidate).value)
  {
    assert op in w.fields.active;
    MadeElsewhere(w, GoStep(w, op, candidate).value, op);
  }

  lemma StagedInv(w: World, op: OpId, candidate: nat)
    requires Inv(w) && op < |w.ops| && w.ops[op].Staged?
    ensures Inv(GoStep(w, op, candidate).value)
  {
    MadeElsewhere(w, GoStep(w, op, candidate).value, op);
  }

  lemma WritingInv(w: World, op: OpId, candidate: nat)
    requires Inv(w) && op < |w.ops| && w.ops[op].Writing? && GoStep(w, op, candidate).Some?
    ensures Inv(GoStep(w, op, candidate).value)
  {
    assert op in w.fields.active;
    MadeElsewhere(w, GoStep(w, op, candidate).value, op);
  }

  lemma RenamedInv(w: World, op: OpId, candidate: nat)
    requires Inv(w) && op < |w.ops| && w.ops[op].Renamed? && w.ops[op].kind == File
    ensures Inv(GoStep(w, op, candidate).value)
  {
    assert op in w.fields.active;
    MadeElsewhere(w, GoStep(w, op, candidate).value, op);
  }

  lemma PromotedInv(w: World, op: OpId, candidate: nat)
    requires Inv(w) && op < |w.ops| && (w.ops[op].Emptied? || (w.ops[op].Renamed? && w.ops[op].kind == Directory))
    ensures Inv(GoStep(w, op, candidate).value)
  {
    assert op in w.fields.active;
    MadeElsewhere(w, GoStep(w, op, candidate).value, op);
  }

  lemma FailInv(w: World, op: OpId)
    requires Inv(w) && op < |w.ops| && !w.ops[op].Made?
    ensures Inv(EndOp(w, op))
  {
    MadeElsewhere(w, EndOp(w, op), op);
  }

  lemma GoInv(w: World, op: OpId, candidate: nat)
    requires Inv(w) && op < |w.ops| && GoStep(w, op, candidate).Some?
    ensures Inv(GoStep(w, op, candidate).value)
  {
    hide Inv;
    match w.ops[op]
    case Making(_, _) => MakingInv(w, op, candidate);
    case Made(_, _, _) => MadeInv(w, op, candidate);
    case Staged(_, _, _) => StagedInv(w, op, candidate);
    case Writing(_, _, _) => WritingInv(w, op, candidate);
    case Renamed(kind, _, _) => if kind == File { RenamedInv(w, op, candidate); } else { PromotedInv(w, op, candidate); }
    case Emptied(_, _) => PromotedInv(w, op, candidate);
  }

  lemma SameOps(w: World, v: World)
    requires w.ops == v.ops
    ensures forall p :: MadeStage(w, p) == MadeStage(v, p)
  {}

  lemma ControlInv(w: World, a: Action)
    requires Inv(w) && (a.RequestClose? || a.Commit? || a.Clean?)
    ensures Inv(Step(w, a).value)
  {
    SameOps(w, Step(w, a).value);
  }

  /** The leases are gone: what is owned is listed for removal; once removed, the books are closed. */
  lemma SettleInv(w: World)
    requires Inv(w) && Step(w, Settle).Some?
    ensures Inv(Step(w, Settle).value)
  {
    SameOps(w, Step(w, Settle).value);
    if w.cleanup.Removing? { NoneHolds(w); }
  }

  lemma RemoveInv(w: World, path: Path)
    requires Inv(w) && Step(w, Remove(path)).Some?
    ensures Inv(Step(w, Remove(path)).value)
  {
    SameOps(w, Step(w, Remove(path)).value);
    NoneHolds(w);
  }

  lemma NoneHolds(w: World)
    requires OpsOk(w) && w.fields.active == {}
    ensures forall i :: 0 <= i < |w.ops| ==> w.ops[i].Staged? || w.ops[i].Ended?
  {
    forall i | 0 <= i < |w.ops| ensures w.ops[i].Staged? || w.ops[i].Ended? { assert i !in w.fields.active; }
  }

  lemma StepInv(w: World, a: Action)
    requires Inv(w) && Step(w, a).Some?
    ensures Inv(Step(w, a).value)
  {
    hide Inv, StartStep, GoStep, EndOp, Doomed;
    match a
    case Start(kind, output) => StartInv(w, kind, output);
    case Go(op, candidate) => GoInv(w, op, candidate);
    case Fail(op) => FailInv(w, op);
    case RequestClose => ControlInv(w, a);
    case Commit => ControlInv(w, a);
    case Clean => ControlInv(w, a);
    case Settle => SettleInv(w);
    case Remove(path) => RemoveInv(w, path);
  }

  // ---------------------------------------------------------------- every run

  ghost predicate IsRun(initial: set<Path>, worlds: seq<World>, actions: seq<Action>) {
    && |worlds| == |actions| + 1 && worlds[0] == InitialWorld(initial)
    && forall i :: 0 <= i < |actions| ==> Step(worlds[i], actions[i]) == Some(worlds[i + 1])
  }

  lemma {:induction false} RunInv(initial: set<Path>, worlds: seq<World>, actions: seq<Action>, k: nat)
    requires IsRun(initial, worlds, actions) && k < |worlds|
    ensures Inv(worlds[k]) && worlds[k].initial == initial
  {
    if k > 0 {
      hide Inv, Step;
      RunInv(initial, worlds, actions, k - 1);
      assert Step(worlds[k - 1], actions[k - 1]) == Some(worlds[k - 1 + 1]);
      StepInv(worlds[k - 1], actions[k - 1]);
      StepKeeps(worlds[k - 1], actions[k - 1]);
    }
  }

  lemma StepKeeps(w: World, a: Action)
    requires Step(w, a).Some?
    ensures var v := Step(w, a).value;
      && v.initial == w.initial && (w.committed ==> v.committed)
      && (w.fields.phase != Open ==> v.fields.phase != Open && (v.committed ==> w.committed))
      && (w.cleanup.Resolved? ==> v.cleanup == w.cleanup)
  {}

  /** An output, or anything else, that existed beforehand is there in every later world, whatever is cleaned up. */
  lemma ExistingIsNeverDeleted(initial: set<Path>, worlds: seq<World>, actions: seq<Action>, k: nat)
    requires IsRun(initial, worlds, actions) && k < |worlds|
    ensures initial <= worlds[k].disk
  {
    RunInv(initial, worlds, actions, k);
  }

  /** When cleanup has resolved no lease is held and none can begin; without a commit the disk is what it was
      before the transaction, with a commit every output that was put in place is there and nothing else is new. */
  lemma CleanupLeavesAllOrNothing(initial: set<Path>, worlds: seq<World>, actions: seq<Action>, k: nat, op: OpId, rollback: Option<Path>)
    requires IsRun(initial, worlds, actions) && k < |worlds| && worlds[k].cleanup.Resolved?
    ensures worlds[k].fields.active == {} && Begun(worlds[k].fields, op, rollback) == None
    ensures worlds[k].disk == initial + if worlds[k].committed then worlds[k].published else {}
  {
    RunInv(initial, worlds, actions, k);
    var w := worlds[k];
    NoneHolds(w);
    assert forall p :: !MadeStage(w, p);
    forall p | p in w.disk && p !in initial ensures p in w.published {}
  }

  /** The exact condition of a commit: it takes effect only while nobody asked to close; a close request, by a
      signal or by cleanup, settles the outcome. */
  lemma {:induction false} CloseRequestSettles(initial: set<Path>, worlds: seq<World>, actions: seq<Action>, i: nat, k: nat)
    requires IsRun(initial, worlds, actions) && i <= k < |worlds| && worlds[i].fields.phase != Open
    ensures worlds[k].committed == worlds[i].committed && worlds[k].fields.phase != Open
    decreases k
  {
    if i < k {
      hide Step;
      CloseRequestSettles(initial, worlds, actions, i, k - 1);
      assert Step(worlds[k - 1], actions[k - 1]) == Some(worlds[k - 1 + 1]);
      StepKeeps(worlds[k - 1], actions[k - 1]);
    }
  }

  // ---------------------------------------------------------------- the object

  class Transaction {
    var phase: Phase
    var active: set<OpId>
    var rollbackPaths: set<Path>
    var temporaryPaths: set<Path>
    var disk: set<Path>

    ghost function View(): Fields
      reads this
    {
      Fields(phase, active, rollbackPaths, temporaryPaths)
    }

    constructor (disk: set<Path>)
      ensures View() == InitialWorld(disk).fields && this.disk == disk
    {
      phase, active, rollbackPaths, temporaryPaths, this.disk := Open, {}, {}, {}, disk;
    }

    method BeginMutation(op: OpId, rollback: Option<Path>) returns (ok: bool)
      modifies this`active, this`rollbackPaths
      ensures ok <==> old(phase) == Open
      ensures active == old(active) + (if ok then {op} else {})
      ensures rollbackPaths == old(rollbackPaths) + if ok && rollback.Some? then {rollback.value} else {}
      ensures ok <==> Begun(old(View()), op, rollback).Some?
      ensures View() == if ok then Begun(old(View()), op, rollback).value else old(View())
    {
      if phase != Open { return false; }
      if rollback.Some? { rollbackPaths := rollbackPaths + {rollback.value}; }
      active := active + {op};
      ok := true;
    }

    method Release(op: OpId)
      modifies this`active
      ensures View() == Released(old(View()), op)
    {
      active := active - {op};
    }

    method RequestClose() returns (first: bool)
      modifies this`phase
      ensures View() == CloseRequested(old(View())) && (first <==> old(phase) == Open)
    {
      if phase != Open { return false; }
      phase := Closing;
      first := true;
    }

    method Commit() returns (ok: bool)
      modifies this`phase, this`rollbackPaths
      ensures ok <==> old(phase) == Open
      ensures ok ==> rollbackPaths == {} && phase == Committed
      ensures ok <==> CommittedFields(old(View())).Some?
      ensures View() == if ok then CommittedFields(old(View())).value else old(View())
    {
      if phase != Open { return false; }
      rollbackPaths := {};
      phase := Committed;
      ok := true;
    }

    /** `#clean` after its leases have settled: remove what is owned, forget it, close. */
    method Clean(rollback: bool)
      requires active == {}
      modifies this
      ensures disk == old(disk) - old(temporaryPaths) - if rollback then old(rollbackPaths) else {}
      ensures disk == old(disk) - Doomed(old(View()), rollback)
      ensures View() == Fields(Closed, {}, {}, {})
    {
      var paths := if rollback then temporaryPaths + rollbackPaths else temporaryPaths;
      var todo := paths;
      while todo != {}
        invariant todo <= paths && active == {}
        invariant disk == old(disk) - (paths - todo)
        decreases |todo|
      {
        var path :| path in todo;
        disk := disk - {path};
        todo := todo - {path};
      }
      temporaryPaths, rollbackPaths, phase := {}, {}, Closed;
    }
  }
}
