/** Install and uninstall under the installation lock: releases, the `current` pointer and the two
    registration links. Any file operation may fail, and the process may stop after any of them: `trace`
    records every state of the disk in between. */
module Installer {
  type Target = string

  /** A release tree: being staged or removed, full but still writable, or finished; `content` stands for its files. */
  datatype Release = Partial | Interrupted(content: int) | Complete(content: int)

  datatype Link = Missing | Owned | Foreign

  datatype Current = NoCurrent | Names(target: Target) | ForeignCurrent

  datatype Disk = Disk(current: Current, binLink: Link, legacyLink: Link, releases: map<Target, Release>)

  /** `currentPointer`. */
  datatype Pointer = Pointer(target: Target, present: bool)

  const NO_POINTER := Pointer("", false)

  predicate IsComplete(d: Disk, t: Target) { t in d.releases && d.releases[t].Complete? }

  /** What no crash may break. */
  predicate Safe(d: Disk) { d.current.Names? ==> IsComplete(d, d.current.target) }

  predicate PointsTo(d: Disk, p: Pointer) {
    if p.present then d.current == Names(p.target) && IsComplete(d, p.target) else p == NO_POINTER && d.current == NoCurrent
  }

  predicate AllSafe(trace: seq<Disk>) { forall d :: d in trace ==> Safe(d) }

  /** Nothing but the release `t` differs, and if it was complete it still is. */
  ghost predicate SameBut(d: Disk, e: Disk, t: Target) {
    && e.(releases := d.releases) == d
    && (forall u :: u != t ==> (u in d.releases <==> u in e.releases) && (u in d.releases ==> d.releases[u] == e.releases[u]))
    && (IsComplete(d, t) ==> t in e.releases && e.releases[t] == d.releases[t])
  }

  /** Another tree already has the release's name. */
  predicate Conflicts(d: Disk, t: Target, content: int) {
    t in d.releases && d.releases[t] != Complete(content) && d.releases[t] != Interrupted(content)
  }

  /** How many of the first operations fail. */
  ghost function Failures(faults: nat -> bool, operations: nat): nat {
    if operations == 0 then 0 else Failures(faults, operations - 1) + if faults(operations - 1) then 1 else 0
  }

  lemma {:induction false} NoneFailed(faults: nat -> bool, before: nat, after: nat)
    requires before <= after
    ensures Failures(faults, before) <= Failures(faults, after)
    ensures Failures(faults, before) == Failures(faults, after) <==> forall i :: before <= i < after ==> !faults(i)
  {
    if before < after { NoneFailed(faults, before, after - 1); }
  }

  class Installation {
    var disk: Disk
    ghost var trace: seq<Disk>
    ghost const start: Disk
    const owned: Target -> bool
    const faults: nat -> bool    // which file operations fail, in the order in which they are tried
    var operations: nat          // how many were tried

    constructor (disk: Disk, owned: Target -> bool, faults: nat -> bool)
      ensures this.disk == disk && this.owned == owned && this.faults == faults && trace == [] && operations == 0 && Sound()
    {
      this.disk, this.owned, this.faults, trace, start, operations := disk, owned, faults, [], disk, 0;
    }

    /** Every state that was ever written is safe, and the last one is the disk. */
    ghost predicate Sound()
      reads this
    {
      AllSafe(trace) && disk == if trace == [] then start else trace[|trace| - 1]
    }

    /** The file operations that failed so far. */
    ghost function Failed(): nat
      reads this`operations
    {
      Failures(faults, operations)
    }

    /** The next file operation. */
    method Fault() returns (fails: bool)
      modifies this`operations
      ensures fails == faults(old(operations)) && operations == old(operations) + 1
      ensures Failed() == old(Failed()) + if fails then 1 else 0
    {
      fails := faults(operations);
      operations := operations + 1;
    }

    /** One atomic change of the disk. */
    method Put(next: Disk)
      requires Sound() && Safe(next)
      modifies this`disk, this`trace
      ensures disk == next && trace == old(trace) + [next] && Sound()
    {
      disk, trace := next, trace + [next];
    }

    // -------------------------------------------------------------- reading

    /** `current` is not ours, or names no complete release. */
    predicate Unreadable()
      reads this
    {
      disk.current.ForeignCurrent? || (disk.current.Names? && !(owned(disk.current.target) && IsComplete(disk, disk.current.target)))
    }

    /** Nothing foreign stands in the way of installing the release. */
    predicate Acceptable(t: Target, content: int)
      reads this
    {
      !Unreadable() && !disk.binLink.Foreign? && !disk.legacyLink.Foreign? && !Conflicts(disk, t, content)
    }

    /** `readCurrent`: an owned pointer to a complete release, or none. */
    method ReadCurrent() returns (pointer: Pointer, err: bool)
      modifies this`operations
      ensures operations >= old(operations)
      ensures if !err || Unreadable() then old(Failed()) <= Failed() <= old(Failed()) + 1 else Failed() == old(Failed()) + 1
      ensures !err ==> Failed() == old(Failed())
      ensures !err ==> PointsTo(disk, pointer) && (pointer.present ==> owned(pointer.target))
      ensures Unreadable() ==> err
    {
      pointer := NO_POINTER;
      err := Fault();
      if err || disk.current == NoCurrent { return; }
      if disk.current.ForeignCurrent? || !owned(disk.current.target) || !IsComplete(disk, disk.current.target) {
        err := true;
      } else {
        pointer := Pointer(disk.current.target, true);
      }
    }

    /** `preflightLink`. */
    method Preflight(link: Link) returns (found: bool, err: bool)
      modifies this`operations
      ensures operations >= old(operations)
      ensures if link.Foreign? then err && Failed() <= old(Failed()) + 1 else Failed() == old(Failed()) + if err then 1 else 0
      ensures !err ==> !link.Foreign? && (found <==> link.Owned?)
    {
      err := Fault();
      err := err || link.Foreign?;
      found := link.Owned?;
    }

    // -------------------------------------------------------------- releases

    /** `removeRelease`: the tree is taken apart before it is gone. */
    method RemoveRelease(t: Target) returns (err: bool)
      requires Sound() && Safe(disk) && disk.current != Names(t)
      modifies this
      ensures operations >= old(operations)
      ensures Failed() == old(Failed()) + if err then 1 else 0
      ensures Sound() && Safe(disk)
      ensures disk.(releases := old(disk).releases) == old(disk)
      ensures forall u :: u != t ==>
        (u in disk.releases <==> u in old(disk).releases) && (u in disk.releases ==> disk.releases[u] == old(disk).releases[u])
      ensures !err ==> disk == old(disk).(releases := old(disk).releases - {t})
      // a removal that stops half way leaves a release that is in parts
      ensures err && operations > old(operations) + 1 && t in old(disk).releases ==>
        disk == old(disk).(releases := old(disk).releases[t := Partial])
      ensures err && operations == old(operations) + 1 ==> disk == old(disk)
      ensures forall d :: d in trace ==> d in old(trace) || d.current == old(disk).current
    {
      err := Fault();
      if err { return; }
      if t in disk.releases { Put(disk.(releases := disk.releases[t := Partial])); }
      err := Fault();
      if err { return; }
      ghost var before := disk;
      Put(disk.(releases := disk.releases - {t}));
      assert disk.releases == old(disk).releases - {t};
    }

    method RemoveCreatedRelease(t: Target, created: bool) returns (err: bool)
      requires Sound() && Safe(disk) && (created ==> disk.current != Names(t))
      modifies this
      ensures operations >= old(operations)
      ensures Failed() == old(Failed()) + if err then 1 else 0
      ensures Sound() && Safe(disk)
      ensures !err ==> disk == if created then old(disk).(releases := old(disk).releases - {t}) else old(disk)
    {
      err := false;
      if created { err := RemoveRelease(t); }
    }

    /** `hardenPublishedRelease`: the last mode change makes the tree complete. */
    method Harden(t: Target) returns (err: bool)
      requires Sound() && Safe(disk) && t in disk.releases && disk.releases[t].Interrupted?
      modifies this
      ensures operations >= old(operations)
      ensures Failed() == old(Failed()) + if err then 1 else 0
      ensures Sound() && Safe(disk) && disk.current == old(disk).current
      ensures disk == old(disk) || disk == old(disk).(releases := old(disk).releases[t := Complete(old(disk).releases[t].content)])
      ensures !err ==> disk == old(disk).(releases := old(disk).releases[t := Complete(old(disk).releases[t].content)])
    {
      err := Fault();
      if err { return; }
      Put(disk.(releases := disk.releases[t := Complete(disk.releases[t].content)]));
      err := Fault();
    }

    /** The new release of `prepareRelease`: a stage under another name, then one rename that does not replace. */
    method StageAndPublish(t: Target, content: int) returns (err: bool, undone: bool)
      requires Sound() && Safe(disk) && t !in disk.releases
      modifies this
      ensures operations >= old(operations)
      ensures if err then Failed() > old(Failed()) && (undone <==> Failed() == old(Failed()) + 1) else Failed() == old(Failed())
      ensures Sound() && Safe(disk) && disk.current == old(disk).current
      ensures !err ==> disk == old(disk).(releases := old(disk).releases[t := Complete(content)])
      ensures err && undone ==> disk == old(disk)
    {
      hide Failures;
      undone := true;
      err := Fault();
      if err {
        // the stage is removed again
        var stays := Fault();
        undone := !stays;
        return;
      }
      Put(disk.(releases := disk.releases[t := Interrupted(content)]));
      err := Fault();
      if !err { err := Harden(t); }
      if err {
        var stays := RemoveRelease(t);
        undone := !stays;
        assert undone ==> disk.releases == old(disk).releases;
        return;
      }
      assert disk.releases == old(disk).releases[t := Complete(content)];
    }

    /** `prepareRelease`: reuse a complete release, finish an interrupted one, or stage and publish a new one.
        `undone` is false when a cleanup failed. */
    method PrepareRelease(t: Target, content: int) returns (created: bool, err: bool, undone: bool)
      requires Sound() && Safe(disk)
      modifies this
      ensures operations >= old(operations)
      ensures if err then undone <==> Failed() <= old(Failed()) + 1 else Failed() == old(Failed())
      ensures Failed() == old(Failed()) ==> (err <==> Conflicts(old(disk), t, content))
      ensures Sound() && Safe(disk)
      ensures !err ==> t in disk.releases && disk.releases[t] == Complete(content) && SameBut(old(disk), disk, t)
      ensures !err && !created ==> t in old(disk).releases
      ensures created ==> !err && t !in old(disk).releases && disk == old(disk).(releases := old(disk).releases[t := Complete(content)])
      ensures err && undone ==> SameBut(old(disk), disk, t) && (t !in old(disk).releases ==> disk.releases == old(disk).releases)
      ensures err ==> disk.current == old(disk).current
    {
      hide Failures;
      created, undone := false, true;
      err := Fault();
      if err { return; }
      if t in disk.releases {
        if disk.releases[t] == Complete(content) { return; }
        if disk.releases[t] != Interrupted(content) { return false, true, true; }
        err := Harden(t);
        if err {
          var stays := RemoveRelease(t);
          undone := !stays;
        }
        return;
      }
      err, undone := StageAndPublish(t, content);
      created := !err;
    }

    // -------------------------------------------------------------- current

    /** `switchCurrent`: a new symlink renamed over the old one. */
    method SwitchCurrent(expected: Pointer, t: Target) returns (switched: bool, err: bool)
      requires Sound() && Safe(disk) && IsComplete(disk, t)
      modifies this
      ensures operations >= old(operations)
      ensures PointsTo(old(disk), expected) && (expected.present ==> owned(expected.target)) ==>
        Failed() == old(Failed()) + if err then 1 else 0
      ensures Sound() && Safe(disk)
      ensures disk == if switched then old(disk).(current := Names(t)) else old(disk)
      ensures switched ==> PointsTo(old(disk), expected)
      ensures !err ==> switched && Failed() == old(Failed())
    {
      switched := false;
      var actual;
      actual, err := ReadCurrent();
      if err { return; }
      if actual != expected { return false, true; }
      err := Fault();
      if err { return; }
      Put(disk.(current := Names(t)));
      switched := true;
      err := Fault();
    }

    /** `restoreCurrent`: back to the old pointer, or to none. */
    method RestoreCurrent(installed: Target, previous: Pointer) returns (err: bool)
      requires Sound() && Safe(disk) && (previous.present ==> IsComplete(disk, previous.target))
      modifies this
      ensures operations >= old(operations)
      ensures old(disk).current == Names(installed) && owned(installed) ==> Failed() == old(Failed()) + if err then 1 else 0
      ensures Sound() && Safe(disk)
      ensures disk.(current := old(disk).current) == old(disk)
      ensures !err ==> disk.current == if previous.present then Names(previous.target) else NoCurrent
      ensures old(disk).current != Names(installed) ==> err && disk == old(disk)
    {
      var actual;
      actual, err := ReadCurrent();
      if err { return; }
      if !actual.present || actual.target != installed { return true; }
      if previous.present {
        var switched;
        switched, err := SwitchCurrent(actual, previous.target);
        return;
      }
      err := Fault();
      if err { return; }
      Put(disk.(current := NoCurrent));
      err := Fault();
    }

    // -------------------------------------------------------------- the links

    /** `publishLink` for the binary link: a rename that does not replace. */
    method PublishBin() returns (published: bool, err: bool)
      requires Sound() && Safe(disk)
      modifies this
      ensures operations >= old(operations)
      ensures old(disk).binLink.Missing? ==> Failed() == old(Failed()) + if err then 1 else 0
      ensures Sound() && Safe(disk)
      ensures disk == if published then old(disk).(binLink := Owned) else old(disk)
      ensures published ==> old(disk).binLink.Missing?
      ensures !err ==> published
    {
      published := false;
      err := Fault();
      if err || !disk.binLink.Missing? { return false, true; }
      Put(disk.(binLink := Owned));
      published := true;
      err := Fault();
    }

    method PublishLegacy() returns (err: bool)
      requires Sound() && Safe(disk)
      modifies this
      ensures operations >= old(operations)
      ensures old(disk).legacyLink.Missing? ==> Failed() == old(Failed()) + if err then 1 else 0
      ensures Sound() && Safe(disk)
      ensures disk == old(disk) || disk == old(disk).(legacyLink := Owned)
      ensures !err ==> disk == old(disk).(legacyLink := Owned)
    {
      err := Fault();
      if err || !disk.legacyLink.Missing? { return true; }
      Put(disk.(legacyLink := Owned));
      err := Fault();
    }

    /** `removeCreatedLink` for the binary link. */
    method RemoveCreatedBin(created: bool) returns (err: bool)
      requires Sound() && Safe(disk)
      modifies this
      ensures operations >= old(operations)
      ensures !created || old(disk).binLink.Owned? ==> Failed() == old(Failed()) + if err then 1 else 0
      ensures Sound() && Safe(disk) && disk.(binLink := old(disk).binLink) == old(disk)
      ensures !created ==> !err && disk == old(disk)
      ensures created && !err ==> disk.binLink.Missing?
    {
      if !created { return false; }
      var found;
      found, err := Preflight(disk.binLink);
      if err || !found { return true; }
      err := Fault();
      if err { return; }
      Put(disk.(binLink := Missing));
      err := Fault();
    }

    /** `removeExpectedLink`, for the link that `bin` selects. */
    method RemoveExpectedLink(bin: bool, expected: bool) returns (removed: bool, err: bool)
      requires Sound() && Safe(disk)
      modifies this
      ensures operations >= old(operations)
      ensures (if bin then old(disk).binLink else old(disk).legacyLink) == (if expected then Owned else Missing) ==>
        Failed() == old(Failed()) + if err then 1 else 0
      ensures Sound() && Safe(disk)
      ensures disk == if !removed then old(disk) else if bin then old(disk).(binLink := Missing) else old(disk).(legacyLink := Missing)
      ensures removed ==> expected && (if bin then old(disk).binLink else old(disk).legacyLink) == Owned
      ensures !err ==> (removed <==> expected) && (if bin then disk.binLink else disk.legacyLink) == Missing
      ensures forall d :: d in trace ==> d in old(trace) || (d.current == old(disk).current && d.releases == old(disk).releases)
    {
      removed := false;
      var found;
      found, err := Preflight(if bin then disk.binLink else disk.legacyLink);
      if err || found != expected { return false, true; }
      if !expected { return; }
      err := Fault();
      if err { return; }
      Put(if bin then disk.(binLink := Missing) else disk.(legacyLink := Missing));
      removed := true;
      err := Fault();
    }

    // -------------------------------------------------------------- install

    /** `rollbackInitial`. */
    method RollbackInitial(t: Target, createdBin: bool, created: bool) returns (undone: bool)
      requires Sound() && Safe(disk) && (created ==> disk.current != Names(t))
      modifies this
      ensures operations >= old(operations)
      ensures !createdBin || old(disk).binLink.Owned? ==> Failed() == old(Failed()) + if undone then 0 else 1
      ensures Sound() && Safe(disk)
      ensures undone ==>
        && disk.current == old(disk).current && disk.legacyLink == old(disk).legacyLink
        && disk.binLink == (if createdBin then Missing else old(disk).binLink)
        && disk.releases == (if created then old(disk).releases - {t} else old(disk).releases)
    {
      var err := RemoveCreatedBin(createdBin);
      if err { return false; }
      err := RemoveCreatedRelease(t, created);
      undone := !err;
    }

    /** As before, but for an interrupted release of the same name that was finished or dropped. */
    ghost predicate Undone(before: Disk, t: Target)
      reads this
    {
      && disk.current == before.current && disk.binLink == before.binLink && disk.legacyLink == before.legacyLink
      && SameBut(before, disk, t) && (t !in before.releases ==> disk.releases == before.releases)
    }

    /** Installs `content` as release `t`. A stop at any step leaves `current` absent or naming a complete
        release; a failure whose undo steps all succeeded leaves everything as before. */
    method Install(t: Target, content: int) returns (ok: bool, undone: bool)
      requires Sound()
      modifies this
      ensures operations >= old(operations)
      // it succeeds exactly when nothing stood in the way and none of its file operations failed; the undo failed exactly
      // when a second file operation did
      ensures owned(t) ==> (ok <==> Failed() == old(Failed()) && old(Acceptable(t, content)))
      ensures !ok && owned(t) ==> (undone <==> Failed() <= old(Failed()) + 1)
      ensures Sound()
      ensures ok ==>
        && !old(disk).binLink.Foreign? && !old(disk).legacyLink.Foreign? && !old(disk).current.ForeignCurrent?
        && disk.current == Names(t) && t in disk.releases && disk.releases[t] == Complete(content)
        && disk.binLink == Owned && disk.legacyLink == Missing
        && forall u :: IsComplete(old(disk), u) ==> u in disk.releases && disk.releases[u] == old(disk).releases[u]
      ensures !ok && undone ==> Undone(old(disk), t)
    {
      hide Failures;
      undone := true;
      ok := false;
      var binExists, legacyExists, previous, err;
      binExists, err := Preflight(disk.binLink);
      if err { return; }
      legacyExists, err := Preflight(disk.legacyLink);
      if err { return; }
      previous, err := ReadCurrent();
      if err { return; }
      var created;
      created, err, undone := PrepareRelease(t, content);
      if err { return; }
      ok, undone := Commit(t, content, previous, binExists, legacyExists, created);
      if !ok && undone && created { assert disk.releases == old(disk).releases; }
    }

    /** `install` after `prepareRelease`. */
    method Commit(t: Target, content: int, previous: Pointer, binExists: bool, legacyExists: bool, created: bool)
      returns (ok: bool, undone: bool)
      requires Sound() && Safe(disk) && PointsTo(disk, previous) && t in disk.releases && disk.releases[t] == Complete(content)
      requires created ==> disk.current != Names(t)
      requires disk.binLink == (if binExists then Owned else Missing) && disk.legacyLink == (if legacyExists then Owned else Missing)
      modifies this
      ensures operations >= old(operations)
      ensures if ok then Failed() == old(Failed())
        else owned(t) && (previous.present ==> owned(previous.target)) ==> Failed() > old(Failed()) && (undone <==> Failed() == old(Failed()) + 1)
      ensures Sound() && Safe(disk)
      ensures ok ==> disk == Disk(Names(t), Owned, Missing, old(disk).releases)
      ensures !ok && undone ==> disk == old(disk).(releases := if created then old(disk).releases - {t} else old(disk).releases)
    {
      hide Failures;
      var err := Fault();
      if err {
        // the staged binary does not verify, or the commit hook refuses
        err := RemoveCreatedRelease(t, created);
        return false, !err;
      }
      if previous.present && previous.target == t && binExists && !legacyExists {
        err := Fault();
        return !err, true;
      }
      var createdBin := false;
      if !binExists {
        createdBin, err := PublishBin();
        if err {
          undone := RollbackInitial(t, createdBin, created);
          return false, undone;
        }
      }
      var switched;
      switched, err, undone := SwitchOrUndo(t, previous, createdBin, created);
      if err { return false, undone; }
      ok, undone := Settle(t, previous, createdBin, legacyExists, switched, created);
    }

    /** The switch to the new release, if `current` does not name it yet; a failed one is undone with what came before. */
    method SwitchOrUndo(t: Target, previous: Pointer, createdBin: bool, created: bool)
      returns (switched: bool, err: bool, undone: bool)
      requires Sound() && Safe(disk) && PointsTo(disk, previous) && IsComplete(disk, t) && disk.binLink == Owned
      requires created ==> disk.current != Names(t)
      modifies this
      ensures operations >= old(operations)
      ensures if !err then Failed() == old(Failed())
        else owned(t) && (previous.present ==> owned(previous.target)) ==> Failed() > old(Failed()) && (undone <==> Failed() == old(Failed()) + 1)
      ensures Sound() && Safe(disk)
      ensures !err ==> disk == old(disk).(current := Names(t)) && (switched <==> previous != Pointer(t, true))
      ensures err && undone ==>
        disk == old(disk).(binLink := if createdBin then Missing else Owned,
                           releases := if created then old(disk).releases - {t} else old(disk).releases)
    {
      switched, err, undone := false, false, true;
      if previous.target == t && previous.present { return; }
      switched, err := SwitchCurrent(previous, t);
      if !err { return; }
      if switched {
        var fails := RestoreCurrent(t, previous);
        if fails { return switched, true, false; }
      }
      undone := RollbackInitial(t, createdBin, created);
    }

    /** `install` once `current` names the new release. */
    method Settle(t: Target, previous: Pointer, createdBin: bool, legacyExists: bool, switched: bool, created: bool)
      returns (ok: bool, undone: bool)
      requires Sound() && Safe(disk) && disk.current == Names(t) && (previous.present ==> IsComplete(disk, previous.target))
      requires created ==> switched && !(previous.present && previous.target == t)
      requires !switched ==> previous == Pointer(t, true)
      requires disk.binLink == Owned && disk.legacyLink == (if legacyExists then Owned else Missing)
      modifies this
      ensures operations >= old(operations)
      ensures if ok then Failed() == old(Failed()) else owned(t) ==> Failed() > old(Failed()) && (undone <==> Failed() == old(Failed()) + 1)
      ensures Sound() && Safe(disk)
      ensures ok ==> disk == old(disk).(legacyLink := Missing)
      ensures !ok && undone ==>
        disk == Disk(if previous.present then Names(previous.target) else NoCurrent,
                     if createdBin then Missing else Owned, old(disk).legacyLink,
                     if created then old(disk).releases - {t} else old(disk).releases)
    {
      hide Failures;
      var err := Fault();
      if err {
        err := RestoreCurrent(t, previous);
        if err { return false, false; }
        undone := RollbackInitial(t, createdBin, created);
        return false, undone;
      }
      var removed;
      removed, err := RemoveExpectedLink(false, legacyExists);
      if !err { return true, true; }
      if switched {
        err := RestoreCurrent(t, previous);
        if err { return false, false; }
      }
      err := false;
      if removed { err := PublishLegacy(); }
      undone := RollbackInitial(t, createdBin, created);
      undone := undone && !err;
      ok := false;
    }

    // -------------------------------------------------------------- uninstall

    /** Whatever is there was put there by an install. */
    predicate Removable()
      reads this
    {
      && !Unreadable() && !disk.binLink.Foreign? && !disk.legacyLink.Foreign?
      && forall t :: t in disk.releases ==> owned(t) && !disk.releases[t].Partial?
    }

    /** Everything is checked first; then the links, `current` and only then the releases go. */
    method Uninstall() returns (ok: bool)
      requires Sound()
      modifies this
      ensures operations >= old(operations)
      ensures Sound()
      ensures ok ==> disk == Disk(NoCurrent, Missing, Missing, map[])
      // it succeeds exactly when everything there is ours and none of its file operations failed
      ensures ok <==> Failed() == old(Failed()) && old(Removable())
      ensures ok ==> !old(disk).binLink.Foreign? && !old(disk).legacyLink.Foreign? && !old(disk).current.ForeignCurrent?
      ensures ok ==> forall t :: t in old(disk).releases ==> owned(t) && !old(disk).releases[t].Partial?
      // no release is touched while `current` is there
      ensures forall d :: d in trace ==> d in old(trace) || d.current == NoCurrent || d.releases == old(disk).releases
      ensures !ok ==> disk.current == NoCurrent || disk.releases == old(disk).releases
    {
      hide Failures;
      var binExists, legacyExists, current, err;
      binExists, err := Preflight(disk.binLink);
      if err { return false; }
      legacyExists, err := Preflight(disk.legacyLink);
      if err { return false; }
      current, err := ReadCurrent();
      if err || !Removable() { return false; }
      ok := RemoveInstalled(binExists, legacyExists, current);
    }

    /** Uninstall once everything is checked: the links, then `current`, then the releases. */
    method RemoveInstalled(binExists: bool, legacyExists: bool, current: Pointer) returns (ok: bool)
      requires Sound() && Safe(disk) && PointsTo(disk, current)
      requires disk.binLink == (if binExists then Owned else Missing) && disk.legacyLink == (if legacyExists then Owned else Missing)
      modifies this
      ensures operations >= old(operations)
      ensures Sound() && Failed() == old(Failed()) + if ok then 0 else 1
      ensures ok ==> disk == Disk(NoCurrent, Missing, Missing, map[])
      ensures forall d :: d in trace ==> d in old(trace) || d.current == NoCurrent || d.releases == old(disk).releases
      ensures !ok ==> disk.current == NoCurrent || disk.releases == old(disk).releases
    {
      hide Failures;
      var removed, err;
      removed, err := RemoveExpectedLink(false, legacyExists);
      if err { return false; }
      removed, err := RemoveExpectedLink(true, binExists);
      if err { return false; }
      if current.present {
        err := Fault();
        if err { return false; }
        Put(disk.(current := NoCurrent));
      }
      ok := RemoveReleases();
    }

    /** The last part of an uninstall: every release, then the directories. */
    method RemoveReleases() returns (ok: bool)
      requires Sound() && disk.current == NoCurrent
      modifies this
      ensures operations >= old(operations)
      ensures Sound() && disk.current == NoCurrent && Failed() == old(Failed()) + if ok then 0 else 1
      ensures ok ==> disk == old(disk).(releases := map[])
      ensures forall d :: d in trace ==> d in old(trace) || d.current == NoCurrent
    {
      var err;
      while disk.releases != map[]
        invariant Sound() && disk == old(disk).(releases := disk.releases) && Failed() == old(Failed())
        invariant operations >= old(operations)
        invariant forall d :: d in trace ==> d in old(trace) || d.current == NoCurrent
        decreases |disk.releases|
      {
        var t :| t in disk.releases;
        ghost var before := disk.releases;
        err := RemoveRelease(t);
        if err { return false; }
        Shrinks(before, t);
      }
      err := Fault();
      ok := !err;
    }
  }

  lemma Shrinks(m: map<Target, Release>, t: Target)
    requires t in m
    ensures |m - {t}| < |m|
  {
    assert (m - {t}).Keys == m.Keys - {t};
    assert |m - {t}| == |(m - {t}).Keys| && |m| == |m.Keys|;
  }
}
