/** A rollback whose removal of the volume failed, and whose undo failed with it, leaves its copy beside
    the READY volume (RollbackVolume in internal/api/rollback.go). What becomes of the two when the
    volume is deleted before the copy is swept.
  */
module Leftovers {
  import opened Lvm
  import opened Recover
  import opened Rollbacks
  import opened Volumes
  import opened Deletes
  import RecoverExact

  // The delete has marked its volume, recovery runs before anything is removed.
  function DeleteMarked(lvs: Lvs, x: string, s: string, names: set<string>): Lvs
    requires x in lvs && s in lvs && s != x && RollbackTempName(x) !in lvs
  {
    Marked(At(lvs, x, s, Copied), names)
  }

  lemma MarkedOnes(lvs: Lvs, names: set<string>, n: string)
    requires n in lvs
    ensures n in Marked(lvs, names)
    ensures Marked(lvs, names)[n] == if n in names then Stepped(lvs[n], ToDeleting) else lvs[n]
  {
  }

  // Names stay single under marks, and no copy is marked.
  lemma MarksStaySingle(lvs: Lvs, names: set<string>)
    requires Single(lvs) && forall n :: n in names && n in lvs ==> lvs[n].state != Rollback
    ensures Single(Marked(lvs, names))
    ensures forall n :: Waits(lvs, n) ==> Waits(Marked(lvs, names), n)
  {
  }

  // At that node recovery depends on its order: one completed recovery removes volume and copy,
  // another one finishes the rollback.
  lemma MarkedDeleteDiverges(lvs: Lvs, x: string, s: string, names: set<string>)
    requires CanRollback(lvs, x, s) && x in names
    requires forall n :: n in names ==> n == x || IsSnapshotOf(At(lvs, x, s, Copied), n, x)
    ensures var now := DeleteMarked(lvs, x, s, names);
            exists g, h :: Fits(now, g) && Fits(now, h) && Recovered(now, g) && Recovered(now, h)
                && After(now, g) != After(now, h)
  {
    var left, temp := At(lvs, x, s, Copied), RollbackTempName(x);
    var now := DeleteMarked(lvs, x, s, names);
    CleanAt(lvs, x, s, Copied);
    RecordsAt(lvs, x, s, Copied);
    TempDiffers(x);
    assert Waits(left, temp) && temp !in names;
    hide At, CanRollback, Fits, Recovered, After, CopiesSettle, LineageSettles;
    MarksStaySingle(left, names);
    MarkedOnes(left, names, x);
    MarkedOnes(left, names, temp);
    RecoverExact.CopyDiverges(now, temp);
  }

  // ------------------------------------------------------------------- the delete runs to its end

  // What MarkDeleting and RunDelete leave when all goes well.
  function DeletedAnyway(lvs: Lvs, x: string, s: string, snapshots: seq<string>): Lvs
    requires x in lvs && s in lvs && s != x && RollbackTempName(x) !in lvs
  {
    RemovedAll(Marked(At(lvs, x, s, Copied), Names(snapshots) + {x}), snapshots + [x])
  }

  // Removing the marked ones leaves a node clean.
  lemma {:induction false} RemovedAllStaysClean(lvs: Lvs, gone: seq<string>)
    requires Clean(lvs) && forall n :: n in gone && n in lvs ==> Owned(lvs, n)
    ensures Clean(RemovedAll(lvs, gone))
  {
    hide Clean;
    if gone != [] {
      var last := |gone| - 1;
      var before := RemovedAll(lvs, gone[..last]);
      RemovedAllStaysClean(lvs, gone[..last]);
      RemovedAllKeeps(lvs, gone[..last], gone[last]);
      RemovedStaysClean(before, gone[last]);
    }
  }

  // Marks on what goes do not matter.
  lemma {:induction false} MarksVanish(lvs: Lvs, names: set<string>, gone: seq<string>)
    ensures forall n :: n in RemovedAll(lvs, gone) && n !in names ==>
              && n in RemovedAll(Marked(lvs, names), gone)
              && RemovedAll(Marked(lvs, names), gone)[n] == RemovedAll(lvs, gone)[n]
    ensures RemovedAll(Marked(lvs, names), gone).Keys == RemovedAll(lvs, gone).Keys
  {
    hide Stepped;
    if gone != [] {
      MarksVanish(lvs, names, gone[..|gone| - 1]);
    }
  }

  lemma DeletedIsRemoved(lvs: Lvs, names: set<string>, gone: seq<string>)
    requires forall n :: n in names ==> n in gone
    ensures RemovedAll(Marked(lvs, names), gone) == RemovedAll(lvs, gone)
  {
    hide RemovedAll, Marked;
    MarksVanish(lvs, names, gone);
    forall n | n in RemovedAll(lvs, gone) ensures n !in names {
      RemovedAllKeeps(lvs, gone, n);
    }
  }

  // The delete of the volume and all its snapshots succeeds, and every completed recovery brings the
  // volume back READY with the content of the snapshot the rollback went to.
  lemma DeletedVolumeReturns(lvs: Lvs, x: string, s: string, snapshots: seq<string>, history: seq<Attempt>)
    requires CanRollback(lvs, x, s) && forall n :: n in snapshots <==> IsSnapshotOf(At(lvs, x, s, Copied), n, x)
    requires var deleted := DeletedAnyway(lvs, x, s, snapshots); Fits(deleted, history) && Recovered(deleted, history)
    ensures var deleted := DeletedAnyway(lvs, x, s, snapshots);
            && x !in deleted && s !in deleted
            && var r := After(deleted, history);
               x in r && r[x].state == Ready && r[x].content == lvs[s].content
  {
    var left, temp, deleted := At(lvs, x, s, Copied), RollbackTempName(x), DeletedAnyway(lvs, x, s, snapshots);
    CleanAt(lvs, x, s, Copied);
    TempDiffers(x);
    OthersAt(lvs, x, s, Copied, s);
    RecordsAt(lvs, x, s, Copied);
    hide At, CanRollback, Clean, Fits, Recovered, Settled, RemovedAll, Marked;
    assert s in snapshots && temp !in snapshots;
    DeletedIsRemoved(left, Names(snapshots) + {x}, snapshots + [x]);
    RemovedAllStaysClean(left, snapshots + [x]);
    RemovedAllKeeps(left, snapshots + [x], x);
    RemovedAllKeeps(left, snapshots + [x], s);
    RemovedAllKeeps(left, snapshots + [x], temp);
    RecoverConverges(deleted, history);
    CopyFinishes(deleted, temp, x);
  }
}
