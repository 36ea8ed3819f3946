/** RollbackVolume, its sweeps and its finish, as the daemon runs them
    (internal/api/rollback.go, internal/storage/rollback.go). Its crash points are the phases of
    module Rollbacks.
  */
module RollbackVerbs {
  import opened Digest
  import opened Lvm
  import opened Recover
  import opened Order
  import opened Clients
  import opened Volumes
  import opened Rollbacks
  import C = Cluster
  import P = Pushes

  // ------------------------------------------------------------------------------- the finish

  predicate CopyUnder(lvs: Lvs, name: string, x: string) {
    name in lvs && lvs[name].state == Rollback && lvs[name].rollbackTarget == x && x != ""
  }

  // The copy is under exactly one of its two names, still tagged ROLLBACK.
  predicate Pending(lvs: Lvs, temp: string, x: string) {
    (CopyUnder(lvs, temp, x) && (temp == x || x !in lvs)) || (temp !in lvs && CopyUnder(lvs, x, x))
  }

  function Moved(lvs: Lvs, temp: string, x: string): Lvs {
    if temp != x && temp in lvs && x !in lvs then Renamed(lvs, temp, x) else lvs
  }

  function Landed(lvs: Lvs, temp: string, x: string): Lvs {
    Apply(Moved(lvs, temp, x), Change(x, EndRollback))
  }

  // How far a finish got.
  ghost predicate Finishing(start: Lvs, now: Lvs, temp: string, x: string) {
    now == start || now == Moved(start, temp, x) || now == Landed(start, temp, x)
  }

  lemma FinishingStays(start: Lvs, temp: string, x: string)
    requires Pending(start, temp, x)
    ensures var moved, landed := Moved(start, temp, x), Landed(start, temp, x);
            && Pending(moved, temp, x) && CopyUnder(moved, x, x) && (temp != x ==> temp !in moved)
            && x in landed && landed[x] == Edited(moved[x], EndRollback) && (temp != x ==> temp !in landed)
            && Apply(landed, Change(x, EndRollback)) == landed
  {
  }

  // The record a finished rollback leaves: READY with the copy's bytes, ready to be attached.
  predicate Restored(copy: LV, now: LV) {
    && now.state == Ready && !now.active && !now.skip && now.content == copy.content && now.rollbackTarget == ""
    && now.transfer == copy.transfer && now.target == copy.target && now.origin == copy.origin
  }

  // The copy takes the volume's name and is restored there. Nothing else changes but what lvm
  // remembers of the copy's own name.
  predicate CopyLands(before: Lvs, after: Lvs, from: string, x: string)
    requires from in before
  {
    && after.Keys == before.Keys - {from} + {x}
    && x in after && Restored(before[from], after[x])
    && forall n :: n in before && n != from && n != x ==>
         && n in after
         && after[n] == before[n].(lvmOrigin := if before[n].lvmOrigin == from then x else before[n].lvmOrigin)
  }

  lemma LandedLands(start: Lvs, temp: string, x: string)
    requires Pending(start, temp, x) && !start[if temp in start then temp else x].active
    ensures CopyLands(start, Landed(start, temp, x), if temp in start then temp else x, x)
  {
  }

  // A finish that ends well lands the copy, another one leaves it pending.
  lemma FinishLands(start: Lvs, temp: string, x: string)
    requires Pending(start, temp, x) && Quiet(start)
    ensures CopyLands(start, Landed(start, temp, x), if temp in start then temp else x, x)
    ensures forall now :: Finishing(start, now, temp, x) ==>
              now == Landed(start, temp, x) || Pending(now, temp, x)
    ensures Finishing(start, start, temp, x)
  {
    hide Quiet, Moved, Landed, CopyLands;
    FinishingStays(start, temp, x);
    StillAt(start, if temp in start then temp else x);
    LandedLands(start, temp, x);
  }

  // The rename, unless the copy is under the target's name already, and the retag.
  method FinishOnce(c: Client, name: string, x: string, ghost start: Lvs, ghost temp: string) returns (ok: bool)
    requires c.Valid() && Pending(start, temp, x) && Finishing(start, c.lvs, temp, x)
    requires name == if temp in c.lvs then temp else x
    modifies c
    ensures c.Valid() && c.reused == old(c.reused) && old(c.trace) <= c.trace
    ensures Finishing(start, c.lvs, temp, x) && (ok ==> c.lvs == Landed(start, temp, x))
    ensures old(c.failed) <= c.failed && |c.failed| == |old(c.failed)| + if ok then 0 else 1
    ensures forall i :: |old(c.trace)| <= i < |c.trace| ==> Finishing(start, c.trace[i], temp, x)
  {
    hide Quiet, Orderly, KeptAlong;
    FinishingStays(start, temp, x);
    c.Now();
    if name in c.lvs {
      StillAt(c.lvs, name);
    }
    ghost var lied;
    if name != x {
      assert c.lvs == start;
      RenameKeeps(c.lvs, name, !c.reused);
      ok, lied := c.Run(Rename(name, x), false);
      if !ok {
        return;
      }
    }
    ok, lied := Retag(c, x, EndRollback);
  }

  // Three tries, each looking again where the copy is. Success means the id is READY. After a
  // failure the copy is under exactly one of its names, unless the retag landed behind a failure
  // report.
  method FinishRollback(c: Client, temp: string, x: string) returns (ok: bool)
    requires c.Valid() && Pending(c.lvs, temp, x)
    modifies c
    ensures c.Valid() && c.reused == old(c.reused) && old(c.trace) <= c.trace
    ensures Finishing(old(c.lvs), c.lvs, temp, x) && (ok ==> c.lvs == Landed(old(c.lvs), temp, x))
    ensures c.lvs == Landed(old(c.lvs), temp, x) || Pending(c.lvs, temp, x)
    ensures ok ==> CopyLands(old(c.lvs), c.lvs, if temp in old(c.lvs) then temp else x, x)
    ensures old(c.failed) <= c.failed
    ensures if ok then |c.failed| < |old(c.failed)| + 3 else |c.failed| == |old(c.failed)| + 3
    ensures forall i :: |old(c.trace)| <= i < |c.trace| ==> Finishing(old(c.lvs), c.trace[i], temp, x)
  {
    hide Quiet, Orderly, KeptAlong, Moved, Landed, CopyLands, Finishing, Pending;
    ghost var start := c.lvs;
    c.Now();
    FinishLands(start, temp, x);
    var tries := 0;
    ok := false;
    while tries < 3 && !ok
      invariant c.Valid() && c.reused == old(c.reused) && old(c.trace) <= c.trace
      invariant Finishing(start, c.lvs, temp, x) && (ok ==> c.lvs == Landed(start, temp, x))
      invariant forall i :: |old(c.trace)| <= i < |c.trace| ==> Finishing(start, c.trace[i], temp, x)
      invariant tries <= 3 && old(c.failed) <= c.failed
      invariant |c.failed| == |old(c.failed)| + if ok then tries - 1 else tries
      decreases 3 - tries
    {
      var name, looked := temp, true;
      if temp != x {
        var present;
        looked, present := c.VolumeExists(temp);
        name := if present then temp else x;
      }
      if looked {
        ok := FinishOnce(c, name, x, start, temp);
      }
      tries := tries + 1;
    }
  }

  // -------------------------------------------------------------------------------- the sweeps

  // States a sweep may stop in or pass through.
  ghost predicate Sweeping(start: Lvs, now: Lvs, x: string) {
    var temp := RollbackTempName(x);
    || now == start
    || (Leftover(start, x) && x in start && now == Removed(start, temp))
    || (Leftover(start, x) && x !in start && Finishing(start, now, temp, x))
    || (CopyUnder(start, x, x) && Finishing(start, now, x, x))
  }

  // Settles a leftover copy without waiting for a restart.
  method SweepRollback(c: Client, x: string) returns (ok: bool)
    requires c.Valid() && x != ""
    modifies c
    ensures c.Valid() && c.reused == old(c.reused) && old(c.trace) <= c.trace
    ensures ok ==> c.lvs == SweepCopy(old(c.lvs), x)
    ensures ok && !Leftover(old(c.lvs), x) ==> c.lvs == old(c.lvs)
    ensures ok && Leftover(old(c.lvs), x) ==>
              if x in old(c.lvs) then OnlyGone(old(c.lvs), c.lvs, RollbackTempName(x))
              else CopyLands(old(c.lvs), c.lvs, RollbackTempName(x), x)
    ensures old(c.failed) <= c.failed && (!ok ==> old(c.failed) < c.failed)
    ensures Sweeping(old(c.lvs), c.lvs, x)
    ensures forall i :: |old(c.trace)| <= i < |c.trace| ==> Sweeping(old(c.lvs), c.trace[i], x)
  {
    hide Quiet, Orderly, KeptAlong;
    var temp := RollbackTempName(x);
    TempDiffers(x);
    RemovedIsGone(c.lvs, temp);
    var leftover := c.GetVolume(temp);
    if leftover.Missing? {
      return true;
    }
    if leftover.ScanFailed? {
      return false;
    }
    if leftover.lv.state != Rollback || leftover.lv.rollbackTarget != x {
      return true;
    }
    var looked, present := c.VolumeExists(x);
    if !looked {
      return false;
    }
    if present {
      ok := DropCopy(c, temp);
    } else {
      ok := FinishRollback(c, temp, x);
    }
  }

  method DropCopy(c: Client, temp: string) returns (ok: bool)
    requires c.Valid() && temp in c.lvs
    modifies c
    ensures c.Valid() && c.reused == old(c.reused) && c.trace == old(c.trace) + [c.lvs]
    ensures c.lvs == old(c.lvs) || c.lvs == Removed(old(c.lvs), temp)
    ensures ok ==> c.lvs == Removed(old(c.lvs), temp)
    ensures c.failed == if ok then old(c.failed) else old(c.failed) + [Do(Remove(temp))]
  {
    hide Quiet, Orderly, KeptAlong;
    c.Now();
    RemoveKeeps(c.lvs, temp, !c.reused);
    ghost var lied;
    ok, lied := c.Run(Remove(temp), false);
  }

  // Settles a copy that already sits under the target's name.
  method SweepRenamedRollback(c: Client, x: string) returns (ok: bool)
    requires c.Valid() && x != ""
    modifies c
    ensures c.Valid() && c.reused == old(c.reused) && old(c.trace) <= c.trace
    ensures ok ==> c.lvs == SweepRenamed(old(c.lvs), x)
    ensures ok ==> if CopyUnder(old(c.lvs), x, x) then CopyLands(old(c.lvs), c.lvs, x, x) else c.lvs == old(c.lvs)
    ensures old(c.failed) <= c.failed && (!ok ==> old(c.failed) < c.failed)
    ensures Sweeping(old(c.lvs), c.lvs, x)
    ensures forall i :: |old(c.trace)| <= i < |c.trace| ==> Sweeping(old(c.lvs), c.trace[i], x)
  {
    var current := c.GetVolume(x);
    if current.Missing? {
      return true;
    }
    if current.ScanFailed? {
      return false;
    }
    if current.lv.state != Rollback || current.lv.rollbackTarget != x {
      return true;
    }
    ok := FinishRollback(c, x, x);
  }

  // ------------------------------------------------------------------------------ the rollback

  // What BeginRollback asks for.
  ghost predicate Rollable(lvs: Lvs, x: string, s: string) {
    && Volumes.Has(lvs, x, {Ready}) && x != ""
    && Volumes.Has(lvs, s, {Snapshot}) && Lineage(lvs[s]) == x
    && RollbackTempName(x) !in lvs
  }

  lemma OrderlyCanRollback(lvs: Lvs, x: string, s: string)
    requires Orderly(lvs) && Rollable(lvs, x, s) && !Claimed(lvs, RollbackTempName(x))
    ensures CanRollback(lvs, x, s)
  {
    OrderlyIsClean(lvs);
    TempDiffers(x);
    forall n | Waits(lvs, n) ensures lvs[n].rollbackTarget != x && lvs[n].rollbackTarget != RollbackTempName(x) {
      assert Refers(lvs, n, lvs[n].rollbackTarget);
    }
  }

  // The working copy: the snapshot's bytes, inactive behind the skip flag, waiting for the name.
  predicate IsCopyOf(lv: LV, x: string, s: string, content: Bytes) {
    && lv.state == Rollback && lv.content == content && !lv.active && lv.skip && lv.rollbackTarget == x
    && lv.transfer == "" && lv.target == "" && lv.origin == "" && lv.lvmOrigin == s
  }

  // Checks the lineage and creates the copy, inactive behind the skip flag.
  method BeginRollback(c: Client, x: string, s: string) returns (r: Result)
    requires c.Valid() && x != ""
    modifies c
    ensures c.Valid() && old(c.trace) <= c.trace && (old(c.reused) ==> c.reused)
    ensures c.reused ==> old(c.reused) || Claimed(old(c.lvs), RollbackTempName(x))
    ensures c.lvs != old(c.lvs) ==>
              && Rollable(old(c.lvs), x, s) && c.lvs == At(old(c.lvs), x, s, Copied)
              && (c.reused || !Claimed(old(c.lvs), RollbackTempName(x)))
    ensures r.Done? ==> c.lvs != old(c.lvs)
    ensures r.Done? ==>
              var temp := x + "+rb";
              && temp !in old(c.lvs) && temp in c.lvs && c.lvs == old(c.lvs)[temp := c.lvs[temp]]
              && IsCopyOf(c.lvs[temp], x, s, old(c.lvs)[s].content)
    ensures Told(old(c.failed), c.failed, !r.LvmFailed?) && (Simple(r) || r.WrongLineage?)
    ensures c.lvs != old(c.lvs) ==> r.Done? || r.LvmFailed?
    ensures forall i :: |old(c.trace)| <= i < |c.trace| ==> c.trace[i] == c.lvs
    ensures r.WrongLineage? ==> Volumes.Has(c.lvs, s, {Snapshot}) && Lineage(c.lvs[s]) != x
    ensures r.WrongState? ==> !Volumes.Has(c.lvs, x, {Ready}) || !Volumes.Has(c.lvs, s, {Snapshot})
    ensures r.NotFound? ==> !Owned(c.lvs, x) || !Owned(c.lvs, s)
  {
    hide Quiet, Orderly, KeptAlong, Claimed;
    var volume := c.GetVolume(x);
    if !volume.Found? || volume.lv.state != Ready {
      return Refusal(volume);
    }
    var snapshot := c.GetVolume(s);
    if !snapshot.Found? || snapshot.lv.state != Snapshot {
      return Refusal(snapshot);
    }
    if Lineage(snapshot.lv) != x {
      return WrongLineage;
    }
    var temp := RollbackTempName(x);
    c.Now();
    TempDiffers(x);
    if temp !in c.lvs {
      CopyKeeps(c.lvs, x, s, !c.reused && !Claimed(c.lvs, temp));
    }
    var ok, _ := c.Run(Create(temp, CopyOf(c.lvs, x, s)), Claimed(c.lvs, temp));
    r := if ok then Done else LvmFailed;
  }

  lemma CopyKeeps(lvs: Lvs, x: string, s: string, orderly: bool)
    requires Quiet(lvs) && Rollable(lvs, x, s)
    requires orderly ==> Orderly(lvs) && !Claimed(lvs, RollbackTempName(x))
    ensures Quiet(At(lvs, x, s, Copied)) && (orderly ==> Orderly(At(lvs, x, s, Copied)))
  {
    TempDiffers(x);
    if orderly {
      CreateKeepsOrder(lvs, RollbackTempName(x), CopyOf(lvs, x, s));
    }
  }

  datatype Answer = RolledBack | Refused(why: Result) | Failed | Interrupted

  // The states a rollback goes through once its copy exists, undo included.
  ghost predicate RollingBack(mid: Lvs, now: Lvs, x: string, s: string)
    requires Rollable(mid, x, s)
  {
    || (exists p: Phase :: now == At(mid, x, s, p))
    || now == Removed(At(mid, x, s, Copied), RollbackTempName(x))
  }

  lemma PhaseOf(mid: Lvs, x: string, s: string, p: Phase)
    requires Rollable(mid, x, s)
    ensures RollingBack(mid, At(mid, x, s, p), x, s)
  {
  }

  // The finish of a rollback goes through the phases past the point of no return.
  lemma FinishPhases(mid: Lvs, x: string, s: string)
    requires Rollable(mid, x, s)
    ensures var gone, temp := At(mid, x, s, OriginalGone), RollbackTempName(x);
            && Pending(gone, temp, x)
            && Moved(gone, temp, x) == At(mid, x, s, CopyRenamed)
            && Landed(gone, temp, x) == At(mid, x, s, Finished)
  {
    TempDiffers(x);
  }

  lemma FinishingIsPast(mid: Lvs, now: Lvs, x: string, s: string)
    requires Rollable(mid, x, s) && Finishing(At(mid, x, s, OriginalGone), now, RollbackTempName(x), x)
    ensures RollingBack(mid, now, x, s)
    ensures exists p :: Past(p) && now == At(mid, x, s, p)
  {
    hide At, Moved, Landed;
    FinishPhases(mid, x, s);
    var p := if now == At(mid, x, s, OriginalGone) then OriginalGone
             else if now == At(mid, x, s, CopyRenamed) then CopyRenamed else Finished;
    assert Past(p) && now == At(mid, x, s, p);
  }

  // Past the point of no return the finish must land.
  method FinishVolume(c: Client, ghost mid: Lvs, x: string, s: string) returns (r: Answer)
    requires c.Valid() && Rollable(mid, x, s) && c.lvs == At(mid, x, s, OriginalGone)
    modifies c
    ensures c.Valid() && c.reused == old(c.reused) && old(c.trace) <= c.trace
    ensures r.RolledBack? || r.Interrupted?
    ensures old(c.failed) <= c.failed && (r.Interrupted? ==> |c.failed| == |old(c.failed)| + 3)
    ensures r.RolledBack? ==> c.lvs == At(mid, x, s, Finished)
    ensures r.Interrupted? ==> exists p :: Past(p) && c.lvs == At(mid, x, s, p)
    ensures forall i :: |old(c.trace)| <= i < |c.trace| ==> RollingBack(mid, c.trace[i], x, s)
  {
    hide Quiet, Orderly, KeptAlong, Rollable, RollingBack, At, Moved, Landed, Finishing;
    FinishPhases(mid, x, s);
    ghost var start := c.lvs;
    var ok := FinishRollback(c, RollbackTempName(x), x);
    FinishingIsPast(mid, c.lvs, x, s);
    forall i | |old(c.trace)| <= i < |c.trace| ensures RollingBack(mid, c.trace[i], x, s) {
      FinishingIsPast(mid, c.trace[i], x, s);
    }
    r := if ok then RolledBack else Interrupted;
  }

  lemma CopyIsThere(mid: Lvs, x: string, s: string)
    requires Rollable(mid, x, s)
    ensures RollbackTempName(x) in At(mid, x, s, Copied) && RollbackTempName(x) in At(mid, x, s, OriginalGone)
    ensures Apply(At(mid, x, s, Copied), Remove(x)) == At(mid, x, s, OriginalGone)
    ensures Removed(At(mid, x, s, Copied), x) == At(mid, x, s, OriginalGone)
  {
    TempDiffers(x);
  }

  // From the copy to the end. Lied means the removal of the original landed although lvm
  // reported a failure.
  method ReplaceVolume(c: Client, ghost mid: Lvs, x: string, s: string) returns (r: Answer, ghost lied: bool)
    requires c.Valid() && Rollable(mid, x, s) && c.lvs == At(mid, x, s, Copied)
    modifies c
    ensures c.Valid() && c.reused == old(c.reused) && old(c.trace) <= c.trace
    ensures r.RolledBack? ==> c.lvs == At(mid, x, s, Finished)
    ensures r.Interrupted? ==> exists p :: Past(p) && c.lvs == At(mid, x, s, p)
    ensures r.Failed? ==>
              var left := At(mid, x, s, if lied then OriginalGone else Copied);
              c.lvs == left || c.lvs == Removed(left, RollbackTempName(x))
    ensures forall i :: |old(c.trace)| <= i < |c.trace| ==>
              RollingBack(mid, c.trace[i], x, s) || (lied && c.trace[i] == Lost(mid, x, s))
    ensures (r.Failed? || !lied) && !r.Refused?
    ensures old(c.failed) <= c.failed && (r.Interrupted? ==> |c.failed| == |old(c.failed)| + 3)
    ensures r.Failed? ==> |c.failed| > |old(c.failed)| && c.failed[|old(c.failed)|] == Do(Remove(x))
    ensures r.Failed? && RollbackTempName(x) in c.lvs ==>
              c.failed == old(c.failed) + [Do(Remove(x)), Do(Remove(RollbackTempName(x)))]
    ensures !lied ==> c.trace != old(c.trace) && c.trace[|c.trace| - 1] == c.lvs
  {
    hide Quiet, Orderly, KeptAlong, Rollable, RollingBack, At;
    c.Now();
    RemoveKeeps(c.lvs, x, !c.reused);
    CopyIsThere(mid, x, s);
    PhaseOf(mid, x, s, Copied);
    PhaseOf(mid, x, s, OriginalGone);
    var ok;
    ok, lied := c.Run(Remove(x), false);
    if ok {
      r := FinishVolume(c, mid, x, s);
    } else {
      // before the point of no return
      var _ := DropCopy(c, RollbackTempName(x));
      UndoIsRollingBack(mid, x, s);
      r := Failed;
    }
  }

  lemma UndoIsRollingBack(mid: Lvs, x: string, s: string)
    requires Rollable(mid, x, s)
    ensures RollingBack(mid, Removed(At(mid, x, s, Copied), RollbackTempName(x)), x, s)
  {
  }

  // The undo puts everything back.
  lemma UndoRestores(mid: Lvs, x: string, s: string)
    requires CanRollback(mid, x, s)
    ensures Removed(At(mid, x, s, Copied), RollbackTempName(x)) == mid
  {
    TempDiffers(x);
  }

  // The removal of the original landed behind a failure report, and the undo removed the copy.
  function Lost(mid: Lvs, x: string, s: string): Lvs
    requires x in mid && s in mid && s != x && RollbackTempName(x) !in mid
  {
    Removed(At(mid, x, s, OriginalGone), RollbackTempName(x))
  }

  // Everywhere a rollback can be cut or can stop, false reports included.
  ghost predicate Reaches(mid: Lvs, now: Lvs, x: string, s: string)
    requires Rollable(mid, x, s)
  {
    RollingBack(mid, now, x, s) || now == Lost(mid, x, s)
  }

  lemma LostIsRemoved(mid: Lvs, x: string, s: string)
    requires CanRollback(mid, x, s)
    ensures Lost(mid, x, s) == Removed(mid, x)
  {
    TempDiffers(x);
  }

  // Then the volume is gone for good, and the snapshots are what is left of it.
  lemma FalseReportLoses(mid: Lvs, x: string, s: string, history: seq<Attempt>)
    requires CanRollback(mid, x, s) && Fits(Lost(mid, x, s), history) && Recovered(Lost(mid, x, s), history)
    ensures var r := After(Lost(mid, x, s), history);
            && x !in r && RollbackTempName(x) !in r
            && forall n :: n in mid && mid[n].state == Snapshot ==>
                 n in r && r[n].state == Snapshot && r[n].content == mid[n].content
  {
    var lost := Removed(mid, x);
    LostIsRemoved(mid, x, s);
    LostIsClean(mid, x, s);
    hide Clean, CanRollback, Fits, Recovered, After, Lost, Settled, Waits;
    RecoverConverges(lost, history);
    DeletedReturnsIff(lost, x, history);
    DeletedReturnsIff(lost, RollbackTempName(x), history);
    SnapshotsStay(mid, lost);
  }

  lemma LostIsClean(mid: Lvs, x: string, s: string)
    requires CanRollback(mid, x, s)
    ensures var lost, temp := Removed(mid, x), RollbackTempName(x);
            && Clean(lost) && x !in lost && temp !in lost && x != "" && temp != ""
            && (forall t :: Waits(lost, t) ==> lost[t].rollbackTarget != x && lost[t].rollbackTarget != temp)
            && forall n :: n in mid && mid[n].state == Snapshot ==>
                 n in lost && lost[n].state == Snapshot && lost[n].content == mid[n].content
  {
    TempDiffers(x);
    hide Clean, FateOf, Waits;
    RemovedStaysClean(mid, x);
    WaitersStay(mid, x);
  }

  lemma SnapshotsStay(mid: Lvs, lost: Lvs)
    requires Clean(lost)
    requires forall n :: n in mid && mid[n].state == Snapshot ==>
               n in lost && lost[n].state == Snapshot && lost[n].content == mid[n].content
    ensures forall n :: n in mid && mid[n].state == Snapshot ==>
              && n in Settled(lost) && Settled(lost)[n].state == Snapshot
              && Settled(lost)[n].content == mid[n].content
  {
    hide Clean, Settled;
    forall n | n in mid && mid[n].state == Snapshot
      ensures n in Settled(lost) && Settled(lost)[n].state == Snapshot && Settled(lost)[n].content == mid[n].content
    {
      SnapshotStays(lost, n);
    }
  }

  lemma WaitersStay(lvs: Lvs, n: string)
    ensures forall t :: Waits(Removed(lvs, n), t) ==>
              Waits(lvs, t) && Removed(lvs, n)[t].rollbackTarget == lvs[t].rollbackTarget
  {
  }

  lemma SnapshotStays(lvs: Lvs, n: string)
    requires Clean(lvs) && n in lvs && lvs[n].state == Snapshot
    ensures n in Settled(lvs) && Settled(lvs)[n].state == Snapshot && Settled(lvs)[n].content == lvs[n].content
  {
    hide Settled, CopiesSettle, LineageSettles;
    assert Comes(lvs, n, n);
    SettledFrom(lvs, n, n);
  }

  // The original is there exactly up to the point of no return, unless its bytes are the snapshot's.
  lemma ContentTells(mid: Lvs, x: string, s: string, p: Phase)
    requires CanRollback(mid, x, s)
    ensures var at := At(mid, x, s, p);
            if Past(p) then x in at && at[x] == mid[x] ==> mid[x].content == mid[s].content
            else x in at && at[x] == mid[x]
  {
    hide Clean, Waits, At;
    RecordsAt(mid, x, s, p);
    NamesAt(mid, x, s, p, x);
  }

  // However a rollback is cut, undone, misreported and recovered: the volume is there afterwards if
  // and only if it or its copy was there when it was cut. It is then READY, with its old content if
  // the original was still there and the snapshot's if not, and every snapshot is in place.
  lemma AnyCutRecovers(mid: Lvs, now: Lvs, x: string, s: string, history: seq<Attempt>)
    requires Rollable(mid, x, s) && CanRollback(mid, x, s) && Reaches(mid, now, x, s)
    requires Fits(now, history) && Recovered(now, history)
    ensures var r, temp := After(now, history), RollbackTempName(x);
            && (x in r <==> x in now || temp in now) && temp !in r
            && (x in r ==> r[x].state == Ready)
            && (x in r ==> r[x].content == if x in now && now[x] == mid[x] then mid[x].content else mid[s].content)
            && forall n :: n in mid && mid[n].state == Snapshot ==>
                 n in r && r[n].state == Snapshot && r[n].content == mid[n].content
  {
    hide Clean, Waits;
    if now == Lost(mid, x, s) {
      LostIsRemoved(mid, x, s);
      TempDiffers(x);
      hide Rollable, Fits, Recovered, After;
      FalseReportLoses(mid, x, s, history);
    } else {
      UndoRestores(mid, x, s);
      var p := if now == mid then Untouched else var p: Phase :| now == At(mid, x, s, p); p;
      NamesAt(mid, x, s, p, x);
      ContentTells(mid, x, s, p);
      hide At, Rollable, CanRollback, Fits, Recovered, After;
      RollbackCrashAtomic(mid, x, s, p, history);
    }
  }

  // The volume is READY with the snapshot's bytes and can be attached, its copy is gone, and every
  // other lv is as it was, up to what lvm remembers of its origin.
  ghost predicate RestoredFrom(before: Lvs, after: Lvs, x: string, s: string) {
    && s in before && before[s].state == Snapshot && x in after && after[x].state == Ready
    && after[x].content == before[s].content && !after[x].active && !after[x].skip
    && after[x].transfer == "" && after[x].target == "" && after[x].rollbackTarget == "" && after[x].origin == ""
    && after.Keys == before.Keys - {x + "+rb"} + {x}
    && forall n :: n in before && n !in {x, x + "+rb"} ==>
         n in after && after[n] == before[n].(lvmOrigin := after[n].lvmOrigin)
  }

  lemma FinishedRestores(mid: Lvs, x: string, s: string)
    requires Rollable(mid, x, s)
    ensures RestoredFrom(mid, At(mid, x, s, Finished), x, s)
  {
    hide At, Landed, Moved, Pending;
    TempDiffers(x);
    FinishPhases(mid, x, s);
    CopyRemains(mid, x, s);
    LandedLands(At(mid, x, s, OriginalGone), RollbackTempName(x), x);
  }

  // Past the point of no return the copy stands for the volume.
  lemma CopyRemains(mid: Lvs, x: string, s: string)
    requires Rollable(mid, x, s)
    ensures var gone, temp := At(mid, x, s, OriginalGone), x + "+rb";
            && gone.Keys == mid.Keys - {x} + {temp} && temp !in mid && temp != x
            && IsCopyOf(gone[temp], x, s, mid[s].content)
            && forall n :: n in mid && n != x ==> n in gone && gone[n] == mid[n].(lvmOrigin := gone[n].lvmOrigin)
  {
    TempDiffers(x);
  }

  // What the sweeps before a rollback keep.
  ghost predicate OnlyCopies(before: Lvs, after: Lvs, x: string) {
    forall n | n != x && n != x + "+rb" ::
      && (n in after <==> n in before)
      && (n in before ==> after[n] == before[n].(lvmOrigin := after[n].lvmOrigin))
  }

  lemma SweepsKeep(before: Lvs, x: string)
    requires x != ""
    ensures OnlyCopies(before, SweepCopy(before, x), x) && OnlyCopies(before, SweepRenamed(before, x), x)
  {
    hide Removed, Renamed, OnlyCopies;
    var temp := RollbackTempName(x);
    RemovalKeepsOthers(before, x);
    EditKeepsOthers(before, before, x);
    if temp in before && x !in before {
      RenameKeepsOthers(before, x);
      EditKeepsOthers(before, Renamed(before, temp, x), x);
    }
  }

  lemma RemovalKeepsOthers(before: Lvs, x: string)
    ensures OnlyCopies(before, Removed(before, x + "+rb"), x)
  {
  }

  lemma RenameKeepsOthers(before: Lvs, x: string)
    requires x + "+rb" in before && x !in before
    ensures OnlyCopies(before, Renamed(before, x + "+rb", x), x)
  {
    hide OnlyCopies;
    var temp := x + "+rb";
    var after := Renamed(before, temp, x);
    forall n | n != x && n != temp
      ensures n in after <==> n in before
      ensures n in before ==> after[n] == before[n].(lvmOrigin := after[n].lvmOrigin)
    {
      assert n in after ==> after[n] == Relinked(before[n], temp, x);
    }
    PointByPoint(before, after, x);
  }

  lemma PointByPoint(before: Lvs, after: Lvs, x: string)
    requires forall n | n != x && n != x + "+rb" ::
               && (n in after <==> n in before)
               && (n in before ==> after[n] == before[n].(lvmOrigin := after[n].lvmOrigin))
    ensures OnlyCopies(before, after, x)
  {
  }

  lemma EditKeepsOthers(before: Lvs, after: Lvs, x: string)
    requires OnlyCopies(before, after, x) || before == after
    ensures OnlyCopies(before, Apply(after, Change(x, EndRollback)), x) && OnlyCopies(before, before, x)
  {
  }

  // A finished rollback, the sweeps before it included.
  lemma RollbackRestores(before: Lvs, x: string, s: string)
    requires x != "" && Rollable(SweepRenamed(SweepCopy(before, x), x), x, s)
    ensures var mid := SweepRenamed(SweepCopy(before, x), x);
            RestoredFrom(before, At(mid, x, s, Finished), x, s)
  {
    hide At, SweepCopy, SweepRenamed;
    TempDiffers(x);
    SweepsKeep(before, x);
    SweepsKeep(SweepCopy(before, x), x);
    FinishedRestores(SweepRenamed(SweepCopy(before, x), x), x, s);
  }

  // What an earlier rollback left behind is settled first.
  method SweepBoth(c: Client, x: string) returns (ok: bool)
    requires c.Valid() && x != ""
    modifies c
    ensures c.Valid() && c.reused == old(c.reused) && old(c.trace) <= c.trace
    ensures ok ==> c.lvs == SweepRenamed(SweepCopy(old(c.lvs), x), x)
    ensures old(c.failed) <= c.failed && (!ok ==> old(c.failed) < c.failed)
    ensures forall i :: |old(c.trace)| <= i < |c.trace| ==>
              Sweeping(old(c.lvs), c.trace[i], x) || Sweeping(SweepCopy(old(c.lvs), x), c.trace[i], x)
  {
    hide Quiet, Orderly, KeptAlong, Sweeping, SweepCopy, SweepRenamed, CopyLands, OnlyGone, Leftover;
    ok := SweepRollback(c, x);
    if ok {
      ok := SweepRenamedRollback(c, x);
    }
  }

  // Why a rollback is refused on a node the sweeps have been over.
  ghost predicate Justified(mid: Lvs, why: Result, x: string, s: string, failed: bool) {
    match why
    case NotFound => !Owned(mid, x) || !Owned(mid, s)
    case WrongState(_) => !Volumes.Has(mid, x, {Ready}) || !Volumes.Has(mid, s, {Snapshot})
    case WrongLineage =>
      && Volumes.Has(mid, s, {Snapshot})
      && x != if mid[s].origin != "" then mid[s].origin else mid[s].lvmOrigin
    case LvmFailed => failed
    case _ => false
  }

  // Sweeps, then the rollback proper. What it ends with and what it goes through are the phases of
  // one rollback of the swept node, begun or not.
  method RollbackVolume(c: Client, x: string, s: string)
      returns (r: Answer, ghost mid: Lvs, ghost begun: bool, ghost lied: bool)
    requires c.Valid() && x != ""
    modifies c
    ensures c.Valid() && old(c.trace) <= c.trace
    ensures begun ==>
              && mid == SweepRenamed(SweepCopy(old(c.lvs), x), x)
              && Rollable(mid, x, s) && (c.reused || CanRollback(mid, x, s))
    ensures !begun ==> c.lvs == mid && (r.Failed? || r.Refused?)
    ensures r.Refused? ==> Justified(mid, r.why, x, s, c.failed != old(c.failed))
    ensures r.RolledBack? ==> begun && c.lvs == At(mid, x, s, Finished)
    ensures r.RolledBack? ==> RestoredFrom(old(c.lvs), c.lvs, x, s)
    ensures r.Interrupted? ==> begun && exists p :: Past(p) && c.lvs == At(mid, x, s, p)
    ensures begun ==> RollingBack(mid, c.lvs, x, s) || (lied && c.lvs == Lost(mid, x, s))
    ensures old(c.failed) <= c.failed && (r.Failed? || r.Interrupted? ==> old(c.failed) < c.failed)
    ensures r.Interrupted? ==> |c.failed| >= |old(c.failed)| + 3
    ensures begun && r.Failed? && RollbackTempName(x) in c.lvs ==>
              c.failed[|c.failed| - 1] == Do(Remove(RollbackTempName(x)))
    ensures forall i :: |old(c.trace)| <= i < |c.trace| ==>
              || Sweeping(old(c.lvs), c.trace[i], x) || Sweeping(SweepCopy(old(c.lvs), x), c.trace[i], x)
              || c.trace[i] == mid
              || (begun && (RollingBack(mid, c.trace[i], x, s) || (lied && c.trace[i] == Lost(mid, x, s))))
  {
    hide Quiet, Orderly, KeptAlong, Rollable, RollingBack, At, Claimed, CanRollback, Sweeping, SweepCopy, SweepRenamed,
      IsCopyOf, CopyLands, OnlyGone, Leftover, RestoredFrom;
    begun, lied := false, false;
    var ok := SweepBoth(c, x);
    mid := c.lvs;
    if !ok {
      r := Failed;
      return;
    }
    c.Now();
    var began := BeginRollback(c, x, s);
    begun := c.lvs != mid;
    if begun {
      PhaseOf(mid, x, s, Copied);
      RollbackRestores(old(c.lvs), x, s);
      if !c.reused {
        OrderlyCanRollback(mid, x, s);
      }
    }
    if !began.Done? {
      r := Refused(began);
      return;
    }
    r, lied := ReplaceVolume(c, mid, x, s);
  }

  // A finished rollback is the move protocol's rollback of the copy.
  lemma RollbackIsStep(sha: Sha, s: C.Nodes, n: string, lvs: Lvs, x: string, snapshot: string)
    requires C.Inv(sha, s) && n in s && CanRollback(lvs, x, snapshot) && s[n].copy == P.CopyAt(lvs, x)
    requires |lvs[snapshot].content| < TWO_63
    ensures C.Enabled(s, C.RollBack(n, lvs[snapshot].content))
    ensures C.Next(sha, s, C.RollBack(n, lvs[snapshot].content))[n].copy == P.CopyAt(At(lvs, x, snapshot, Finished), x)
  {
    hide At, Clean, C.LinkOk, C.OneOwner;
    TempDiffers(x);
    RecordsAt(lvs, x, snapshot, Finished);
    assert C.NodeOk(sha, s[n]);
  }
}
