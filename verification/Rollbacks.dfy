/** Rolling a volume back to one of its snapshots, crash by crash
    (internal/api/rollback.go, internal/storage/rollback.go).
  */
module Rollbacks {
  import opened Digest
  import opened Lvm
  import opened Recover

  // The transient copy: writable, inactive behind the skip flag.
  function CopyOf(lvs: Lvs, x: string, s: string): LV
    requires s in lvs
  {
    LV(Rollback, false, true, lvs[s].content, "", "", x, "", s)
  }

  // How far a rollback got. The original is gone from OriginalGone on, the point of no return.
  datatype Phase = Untouched | Copied | OriginalGone | CopyRenamed | Finished

  predicate Past(p: Phase) {
    !p.Untouched? && !p.Copied?
  }

  function At(lvs: Lvs, x: string, s: string, p: Phase): Lvs
    requires x in lvs && s in lvs && s != x && RollbackTempName(x) !in lvs
    decreases p
  {
    var temp := RollbackTempName(x);
    var copied := lvs[temp := CopyOf(lvs, x, s)];
    match p
    case Untouched => lvs
    case Copied => copied
    case OriginalGone => Removed(copied, x)
    case CopyRenamed => Renamed(Removed(copied, x), temp, x)
    case Finished => Apply(Renamed(Removed(copied, x), temp, x), Change(x, EndRollback))
  }

  // BeginRollback's checks, on a clean node without leftovers of an earlier rollback of x.
  ghost predicate CanRollback(lvs: Lvs, x: string, s: string) {
    var temp := RollbackTempName(x);
    && Clean(lvs)
    && x in lvs && lvs[x].state == Ready && x != ""
    && s in lvs && lvs[s].state == Snapshot && Lineage(lvs[s]) == x
    && temp !in lvs
    && (forall n :: Waits(lvs, n) ==> lvs[n].rollbackTarget != x && lvs[n].rollbackTarget != temp)
    && (forall n :: n in lvs ==> lvs[n].lvmOrigin != temp)
  }

  lemma TempDiffers(x: string)
    ensures RollbackTempName(x) != x && RollbackTempName(x) != ""
  {
    assert |RollbackTempName(x)| == |x| + 3;
  }

  // Any other volume, at any crash point: the same record up to a forgotten lvm origin, headed
  // for the same fate.
  lemma OthersAt(lvs: Lvs, x: string, s: string, p: Phase, n: string)
    requires CanRollback(lvs, x, s) && n in lvs && n != x
    ensures var at := At(lvs, x, s, p);
            && n in at && n != RollbackTempName(x)
            && at[n] == (if p.Untouched? || p.Copied? then lvs[n] else Relinked(lvs[n], x, ""))
  {
    TempDiffers(x);
  }

  lemma FatesAt(lvs: Lvs, x: string, s: string, p: Phase, n: string)
    requires CanRollback(lvs, x, s) && n in lvs && n != x
    ensures n in At(lvs, x, s, p) && FateOf(At(lvs, x, s, p), n) == FateOf(lvs, n)
  {
    hide At, Clean;
    var t := lvs[n].rollbackTarget;
    OthersAt(lvs, x, s, p, n);
    if Waits(lvs, n) {
      assert t != x && t != RollbackTempName(x);
      if t in lvs {
        OthersAt(lvs, x, s, p, t);
      } else {
        NamesAt(lvs, x, s, p, t);
      }
    }
  }

  lemma NamesAt(lvs: Lvs, x: string, s: string, p: Phase, n: string)
    requires CanRollback(lvs, x, s)
    ensures var at, temp := At(lvs, x, s, p), RollbackTempName(x);
            && (n in at ==> n in lvs || n == temp)
            && (temp in at <==> p == Copied || p == OriginalGone)
            && (x in at <==> p != OriginalGone)
  {
    TempDiffers(x);
  }

  // The volume itself and its copy at each crash point.
  lemma RecordsAt(lvs: Lvs, x: string, s: string, p: Phase)
    requires CanRollback(lvs, x, s)
    ensures var at, temp, copy := At(lvs, x, s, p), RollbackTempName(x), CopyOf(lvs, x, s);
            && (!Past(p) ==> x in at && at[x] == lvs[x])
            && (p == CopyRenamed ==> x in at && at[x] == copy)
            && (p == Finished ==> x in at && at[x] == Edited(copy, EndRollback))
            && (p == Copied || p == OriginalGone ==> temp in at && at[temp] == copy)
  {
    hide Clean, Waits;
    TempDiffers(x);
    assert s != x;
  }

  lemma VolumeAt(lvs: Lvs, x: string, s: string, p: Phase)
    requires CanRollback(lvs, x, s)
    ensures var at, temp, copy := At(lvs, x, s, p), RollbackTempName(x), CopyOf(lvs, x, s);
            match p
            case Untouched => at[x] == lvs[x] && FateOf(at, x).Stays?
            case Copied => at[x] == lvs[x] && FateOf(at, x).Stays? && at[temp] == copy && FateOf(at, temp).Goes?
            case OriginalGone => x !in at && at[temp] == copy && FateOf(at, temp) == Moves(x)
            case CopyRenamed => at[x] == copy && FateOf(at, x).Stays? && temp !in at
            case Finished => at[x] == Edited(copy, EndRollback) && FateOf(at, x).Stays? && temp !in at
  {
    hide At, Clean, Waits;
    TempDiffers(x);
    NamesAt(lvs, x, s, p, x);
    RecordsAt(lvs, x, s, p);
  }

  // A node in the middle of a rollback of x, past the removal of the original or not.
  ghost predicate Around(lvs: Lvs, at: Lvs, x: string, temp: string, past: bool) {
    && (forall n :: n in at ==> n in lvs || n == temp)
    && (forall n :: n in lvs && n != x ==>
          n in at && FateOf(at, n) == FateOf(lvs, n) && at[n] == if past then Relinked(lvs[n], x, "") else lvs[n])
    && (temp in at ==> at[temp].state == Rollback && at[temp].rollbackTarget == x)
    && (x in at ==> at[x].state in {Ready, Rollback} && FateOf(at, x).Stays? && !Waits(at, x))
  }

  lemma AroundAt(lvs: Lvs, x: string, s: string, p: Phase)
    requires CanRollback(lvs, x, s)
    ensures Around(lvs, At(lvs, x, s, p), x, RollbackTempName(x), Past(p))
  {
    hide At, Clean, Relinked, FateOf;
    var at, temp := At(lvs, x, s, p), RollbackTempName(x);
    forall n ensures n in at ==> n in lvs || n == temp {
      NamesAt(lvs, x, s, p, n);
    }
    forall n | n in lvs && n != x
      ensures n in at && FateOf(at, n) == FateOf(lvs, n)
      ensures at[n] == if Past(p) then Relinked(lvs[n], x, "") else lvs[n]
    {
      OthersAt(lvs, x, s, p, n);
      FatesAt(lvs, x, s, p, n);
    }
    VolumeAt(lvs, x, s, p);
    NamesAt(lvs, x, s, p, x);
  }

  lemma AroundSingle(lvs: Lvs, at: Lvs, x: string, s: string, past: bool)
    requires CanRollback(lvs, x, s) && Around(lvs, at, x, RollbackTempName(x), past)
    ensures Single(at) && CopiesSettle(at)
  {
    var temp := RollbackTempName(x);
    TempDiffers(x);
    forall n | Waits(at, n) ensures n == temp || (Waits(lvs, n) && at[n].rollbackTarget == lvs[n].rollbackTarget) {
    }
    forall n | Waits(at, n) && Owned(at, at[n].rollbackTarget) ensures FateOf(at, at[n].rollbackTarget).Stays? {
      if n != temp {
        var t := lvs[n].rollbackTarget;
        assert t != x && t != temp && t in lvs;
      }
    }
  }

  lemma AroundLineage(lvs: Lvs, at: Lvs, x: string, s: string, past: bool)
    requires CanRollback(lvs, x, s) && Around(lvs, at, x, RollbackTempName(x), past)
    ensures LineageSettles(at)
  {
    hide CopiesSettle, Waits, FateOf;
    TempDiffers(x);
    forall n | n in at && at[n].state == Snapshot && at[n].origin == "" && at[n].lvmOrigin in at
      ensures FateOf(at, at[n].lvmOrigin).Stays?
    {
      var o := at[n].lvmOrigin;
      assert n in lvs && n != x && o == lvs[n].lvmOrigin && o != RollbackTempName(x);
    }
  }

  // No crash point of a rollback spoils recovery.
  lemma CleanAt(lvs: Lvs, x: string, s: string, p: Phase)
    requires CanRollback(lvs, x, s)
    ensures Clean(At(lvs, x, s, p))
  {
    hide At, Around, Waits;
    AroundAt(lvs, x, s, p);
    AroundSingle(lvs, At(lvs, x, s, p), x, s, Past(p));
    AroundLineage(lvs, At(lvs, x, s, p), x, s, Past(p));
  }

  // ---------------------------------------------------------------------- the outcome

  lemma VolumeSettles(lvs: Lvs, x: string, s: string, p: Phase)
    requires CanRollback(lvs, x, s) && Clean(At(lvs, x, s, p))
    ensures var r := Settled(At(lvs, x, s, p));
            && x in r && r[x].state == Ready && RollbackTempName(x) !in r
            && r[x].content == (if Past(p) then lvs[s].content else lvs[x].content)
            && (if Past(p) then !r[x].skip && !r[x].active && r[x].rollbackTarget == ""
                else r[x] == lvs[x].(lvmOrigin := r[x].lvmOrigin))
  {
    hide At, Settled, Waits, FateOf;
    var at, temp := At(lvs, x, s, p), RollbackTempName(x);
    VolumeAt(lvs, x, s, p);
    NamesAt(lvs, x, s, p, x);
    SettledFrom(at, if p == OriginalGone then temp else x, x);
    TempFree(lvs, x, s, p);
  }

  // Nothing takes the copy's own name.
  lemma NobodyComes(lvs: Lvs, x: string, s: string, p: Phase, k: string)
    requires CanRollback(lvs, x, s)
    ensures !Comes(At(lvs, x, s, p), k, RollbackTempName(x))
  {
    TempDiffers(x);
    VolumeAt(lvs, x, s, p);
    NamesAt(lvs, x, s, p, k);
    if k in lvs && k != x {
      OthersAt(lvs, x, s, p, k);
      FatesAt(lvs, x, s, p, k);
      assert FateOf(lvs, k).Moves? ==> Waits(lvs, k);
    }
  }

  lemma TempFree(lvs: Lvs, x: string, s: string, p: Phase)
    requires CanRollback(lvs, x, s)
    ensures RollbackTempName(x) !in Settled(At(lvs, x, s, p))
  {
    hide At;
    var at := At(lvs, x, s, p);
    forall k ensures !Comes(at, k, RollbackTempName(x)) {
      NobodyComes(lvs, x, s, p, k);
    }
  }

  // Every snapshot survives with its content, and keeps its lineage unless it predates the
  // lineage tag, hangs on x itself and the original is already gone.
  lemma SnapshotSettles(lvs: Lvs, x: string, s: string, p: Phase, n: string)
    requires CanRollback(lvs, x, s) && Clean(At(lvs, x, s, p)) && n in lvs && lvs[n].state == Snapshot
    ensures var r := Settled(At(lvs, x, s, p));
            && n in r && r[n].state == Snapshot && r[n].content == lvs[n].content
            && (r[n].origin == Lineage(lvs[n]) <==> !(Past(p) && lvs[n].origin == "" && lvs[n].lvmOrigin == x))
  {
    hide At, Settled;
    var at := At(lvs, x, s, p);
    OthersAt(lvs, x, s, p, n);
    FatesAt(lvs, x, s, p, n);
    SettledFrom(at, n, n);
  }

  // A rollback is atomic under crashes: wherever it is cut, and however often the recovery after
  // it is cut, a completed recovery leaves the id READY exactly once: as it was up to the point of
  // no return, with the snapshot's content and ready to be attached from there on, and every
  // snapshot in place.
  lemma RollbackCrashAtomic(lvs: Lvs, x: string, s: string, p: Phase, history: seq<Attempt>)
    requires CanRollback(lvs, x, s)
    requires Fits(At(lvs, x, s, p), history) && Recovered(At(lvs, x, s, p), history)
    ensures var r := After(At(lvs, x, s, p), history);
            && x in r && r[x].state == Ready && RollbackTempName(x) !in r
            && r[x].content == (if Past(p) then lvs[s].content else lvs[x].content)
            && (if Past(p) then !r[x].skip && !r[x].active && r[x].rollbackTarget == ""
                else r[x] == lvs[x].(lvmOrigin := r[x].lvmOrigin))
            && forall n :: n in lvs && lvs[n].state == Snapshot ==>
                 && n in r && r[n].state == Snapshot && r[n].content == lvs[n].content
                 && (r[n].origin == Lineage(lvs[n]) <==> !(Past(p) && lvs[n].origin == "" && lvs[n].lvmOrigin == x))
  {
    hide At, Settled, Clean, Waits;
    CleanAt(lvs, x, s, p);
    RecoverConverges(At(lvs, x, s, p), history);
    VolumeSettles(lvs, x, s, p);
    forall n | n in lvs && lvs[n].state == Snapshot
      ensures var r := Settled(At(lvs, x, s, p));
              && n in r && r[n].state == Snapshot && r[n].content == lvs[n].content
              && (r[n].origin == Lineage(lvs[n]) <==> !(Past(p) && lvs[n].origin == "" && lvs[n].lvmOrigin == x))
    {
      SnapshotSettles(lvs, x, s, p, n);
    }
  }

  // ------------------------------------------------------------------------ leftover copies

  // A copy of an earlier rollback of x that was never settled.
  predicate Leftover(lvs: Lvs, x: string) {
    var temp := RollbackTempName(x);
    temp in lvs && lvs[temp].state == Rollback && lvs[temp].rollbackTarget == x
  }

  // sweepRollback: settle a leftover under its temp name. Any lv under x's name counts as present.
  function SweepCopy(lvs: Lvs, x: string): Lvs {
    var temp := RollbackTempName(x);
    if !Leftover(lvs, x) then lvs
    else if x in lvs then Apply(lvs, Remove(temp))
    else Apply(Apply(lvs, Rename(temp, x)), Change(x, EndRollback))
  }

  // sweepRenamedRollback: settle a copy that only misses its retag.
  function SweepRenamed(lvs: Lvs, x: string): Lvs {
    if x in lvs && lvs[x].state == Rollback && lvs[x].rollbackTarget == x then Apply(lvs, Change(x, EndRollback))
    else lvs
  }

  // What recovery does with the copies of x.
  ghost function RecoverCopies(lvs: Lvs, x: string): Lvs {
    var one := if Leftover(lvs, x) then ApplyAll(lvs, Actions(lvs, RollbackTempName(x))) else lvs;
    if x in one && one[x].state == Rollback && one[x].rollbackTarget == x then ApplyAll(one, Actions(one, x)) else one
  }

  // The sweeps do what recovery does, except that they drop a copy whose name a foreign lv took,
  // which recovery leaves alone.
  lemma SweepsMatchRecovery(lvs: Lvs, x: string)
    requires x != ""
    ensures SweepRenamed(SweepCopy(lvs, x), x) == RecoverCopies(lvs, x)
            <==> !(Leftover(lvs, x) && x in lvs && lvs[x].state == Foreign)
  {
    var temp := RollbackTempName(x);
    TempDiffers(x);
    ApplyTwo(lvs, Remove(temp), Remove(temp));
    ApplyTwo(lvs, Rename(temp, x), Change(x, EndRollback));
    var one := SweepCopy(lvs, x);
    ApplyTwo(one, Change(x, EndRollback), Change(x, EndRollback));
    if Leftover(lvs, x) {
      if x !in lvs {
        assert Actions(lvs, temp) == [Rename(temp, x), Change(x, EndRollback)];
      } else if lvs[x].state == Foreign {
        assert Actions(lvs, temp) == [];
        assert temp !in one;
      } else {
        assert Actions(lvs, temp) == [Remove(temp)];
      }
    }
  }

  // A free name is taken by recovery exactly when a copy waits for it.
  lemma FreeNameTakenIff(lvs: Lvs, x: string)
    requires Single(lvs) && x !in lvs && x != ""
    ensures x in Survivors(lvs) <==> exists t :: Waits(lvs, t) && lvs[t].rollbackTarget == x
  {
    if x in Survivors(lvs) {
      var t := Source(lvs, x);
      assert Waits(lvs, t) && lvs[t].rollbackTarget == x;
    }
    if t :| Waits(lvs, t) && lvs[t].rollbackTarget == x {
      assert Comes(lvs, t, x);
      ComesUnique(lvs, t, x);
    }
  }

  // A deleted volume comes back with the next recovery exactly when a copy still waits for it.
  lemma DeletedReturnsIff(lvs: Lvs, x: string, history: seq<Attempt>)
    requires Clean(lvs) && x !in lvs && x != "" && Fits(lvs, history) && Recovered(lvs, history)
    ensures x in After(lvs, history) <==> exists t :: Waits(lvs, t) && lvs[t].rollbackTarget == x
  {
    hide Survivors, Waits, Fits, Recovered, After, AllDone, CopiesSettle, LineageSettles;
    RecoverConverges(lvs, history);
    FreeNameTakenIff(lvs, x);
  }

  lemma StaysAfterRemoval(lvs: Lvs, n: string, m: string)
    requires (n in lvs ==> Owned(lvs, n)) && m in lvs && m != n
    ensures m in Removed(lvs, n) && Removed(lvs, n)[m] == Relinked(lvs[m], n, "")
    ensures FateOf(lvs, m).Stays? ==> FateOf(Removed(lvs, n), m).Stays?
    ensures Waits(Removed(lvs, n), m) <==> Waits(lvs, m)
  {
  }

  // Removing an owned lv leaves a clean node clean: whatever waited for its name may now take it.
  lemma RemovedStaysClean(lvs: Lvs, n: string)
    requires Clean(lvs) && (n in lvs ==> Owned(lvs, n))
    ensures Clean(Removed(lvs, n))
  {
    hide FateOf, Waits, CopiesSettle, LineageSettles, Removed;
    RemovedStaysSingle(lvs, n);
    RemovedCopiesSettle(lvs, n);
    RemovedLineageSettles(lvs, n);
  }

  lemma RemovedStaysSingle(lvs: Lvs, n: string)
    requires Single(lvs)
    ensures Single(Removed(lvs, n))
  {
    assert forall m :: Waits(Removed(lvs, n), m) ==>
             Waits(lvs, m) && Removed(lvs, n)[m].rollbackTarget == lvs[m].rollbackTarget;
  }

  lemma RemovedCopiesSettle(lvs: Lvs, n: string)
    requires CopiesSettle(lvs) && (n in lvs ==> Owned(lvs, n))
    ensures CopiesSettle(Removed(lvs, n))
  {
    hide FateOf, Waits;
    var after := Removed(lvs, n);
    WaitersAreThere(after);
    forall m | m in lvs && m != n
      ensures after[m] == Relinked(lvs[m], n, "") && (FateOf(lvs, m).Stays? ==> FateOf(after, m).Stays?)
      ensures Waits(after, m) <==> Waits(lvs, m)
    {
      StaysAfterRemoval(lvs, n, m);
    }
  }

  lemma RemovedLineageSettles(lvs: Lvs, n: string)
    requires LineageSettles(lvs) && "" !in lvs && (n in lvs ==> Owned(lvs, n))
    ensures LineageSettles(Removed(lvs, n))
  {
    hide FateOf, Waits;
    var after := Removed(lvs, n);
    forall m | m in lvs && m != n
      ensures after[m] == Relinked(lvs[m], n, "") && (FateOf(lvs, m).Stays? ==> FateOf(after, m).Stays?)
    {
      StaysAfterRemoval(lvs, n, m);
    }
  }

  lemma WaitersAreThere(lvs: Lvs)
    ensures forall m :: Waits(lvs, m) ==> m in lvs
  {
  }

  // A copy whose target is gone settles as the target.
  lemma CopyFinishes(lvs: Lvs, t: string, x: string)
    requires Clean(lvs) && Waits(lvs, t) && lvs[t].rollbackTarget == x && x !in lvs
    ensures x in Settled(lvs) && Settled(lvs)[x].state == Ready && Settled(lvs)[x].content == lvs[t].content
  {
    hide Settled, CopiesSettle, LineageSettles;
    assert Comes(lvs, t, x);
    SettledFrom(lvs, t, x);
  }
}
