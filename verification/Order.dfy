/** What every crash point of every verb keeps on a node (internal/storage/volumes.go,
    internal/storage/pushes.go, internal/storage/rollback.go).

    Two invariants over the lvs of one node, and what each kind of lvm command does to them. The
    client of module Clients lets no command through that breaks them, and the second one is what
    makes recovery converge.
  */
module Order {
  import opened Lvm
  import opened Recover

  // READY and RETIRED volumes have no device, and neither do rollback copies.
  predicate Still(lv: LV) {
    lv.state == Ready || lv.state == Retired || lv.state == Rollback ==> !lv.active
  }

  predicate Quiet(lvs: Lvs) {
    forall n :: n in lvs ==> Still(lvs[n])
  }

  lemma StillAt(lvs: Lvs, n: string)
    requires Quiet(lvs) && n in lvs
    ensures Still(lvs[n])
  {
  }

  // A snapshot refers to its origin, a copy to the name it waits for.
  ghost predicate Refers(lvs: Lvs, n: string, x: string) {
    || (n in lvs && lvs[n].state == Snapshot && Lineage(lvs[n]) == x)
    || (Waits(lvs, n) && lvs[n].rollbackTarget == x)
  }

  ghost predicate Claimed(lvs: Lvs, x: string) {
    exists n :: Refers(lvs, n, x)
  }

  // A copy of an interrupted rollback waits for the volume's name.
  ghost predicate Awaited(lvs: Lvs, id: string) {
    exists t :: Waits(lvs, t) && lvs[t].rollbackTarget == id
  }

  // A name that recovery does not take away, and that is not a snapshot's.
  ghost predicate Firm(lvs: Lvs, x: string) {
    x in lvs ==> lvs[x].state !in {Creating, Incoming, Deleting, Snapshot} && !Waits(lvs, x)
  }

  // Whatever is referred to is firm or gone, copies carry their own names, and the origins lvm
  // reports exist.
  ghost predicate Orderly(lvs: Lvs) {
    && "" !in lvs
    && (forall n :: n in lvs ==> lvs[n].lvmOrigin == "" || lvs[n].lvmOrigin in lvs)
    && (forall n :: Waits(lvs, n) ==> n == RollbackTempName(lvs[n].rollbackTarget))
    && (forall n, x :: Refers(lvs, n, x) ==> Firm(lvs, x))
  }

  // No volume is being deleted while one of its snapshots still counts as a snapshot.
  predicate DeleteSafe(lvs: Lvs) {
    forall s :: s in lvs && lvs[s].state == Snapshot ==>
      var origin := if lvs[s].origin != "" then lvs[s].origin else lvs[s].lvmOrigin;
      origin in lvs ==> lvs[origin].state != Deleting
  }

  lemma OrderlyIsClean(lvs: Lvs)
    requires Orderly(lvs)
    ensures Clean(lvs) && DeleteSafe(lvs)
  {
    NamedSingle(lvs);
    forall n | Waits(lvs, n) && Owned(lvs, lvs[n].rollbackTarget) ensures FateOf(lvs, lvs[n].rollbackTarget).Stays? {
      assert Refers(lvs, n, lvs[n].rollbackTarget);
    }
    forall n | n in lvs && lvs[n].state == Snapshot && Lineage(lvs[n]) in lvs
      ensures FateOf(lvs, Lineage(lvs[n])).Stays? && lvs[Lineage(lvs[n])].state != Deleting
    {
      assert Refers(lvs, n, Lineage(lvs[n]));
    }
  }

  // At an orderly crash point all recoveries, however interrupted, end in one state.
  lemma OrderlyRecovers(lvs: Lvs, history: seq<Attempt>)
    requires Orderly(lvs) && Fits(lvs, history) && Recovered(lvs, history)
    ensures After(lvs, history) == Settled(lvs)
  {
    OrderlyIsClean(lvs);
    RecoverConverges(lvs, history);
  }

  // --------------------------------------------------------------- one command at a time

  // The record of one volume changes. It takes no new reference, and a claimed volume stays firm.
  lemma EditKeepsOrder(lvs: Lvs, n: string, lv: LV)
    requires Orderly(lvs) && n in lvs && lv.lvmOrigin == lvs[n].lvmOrigin
    requires lv.state == Rollback ==> lvs[n].state == Rollback && lv.rollbackTarget == lvs[n].rollbackTarget
    requires lv.state == Snapshot ==> lvs[n].state == Snapshot && Lineage(lv) == Lineage(lvs[n])
    requires Claimed(lvs, n) && Firm(lvs, n) ==> Firm(lvs[n := lv], n)
    ensures Orderly(lvs[n := lv])
  {
    var after := lvs[n := lv];
    forall m, x | Refers(after, m, x) ensures Firm(after, x) {
      assert Refers(lvs, m, x);
    }
  }

  lemma CreateKeepsOrder(lvs: Lvs, n: string, lv: LV)
    requires Orderly(lvs) && n !in lvs && n != "" && !Claimed(lvs, n)
    requires lv.lvmOrigin == "" || lv.lvmOrigin in lvs
    requires lv.state == Rollback ==> n == RollbackTempName(lv.rollbackTarget) && Firm(lvs, lv.rollbackTarget)
    requires lv.state == Snapshot ==> Lineage(lv) != n && Firm(lvs, Lineage(lv))
    ensures Orderly(lvs[n := lv])
  {
    var after := lvs[n := lv];
    forall m, x | Refers(after, m, x) ensures Firm(after, x) {
      if m != n {
        assert Refers(lvs, m, x);
        assert x != n;
      }
    }
  }

  // Any removal at all.
  lemma RemoveKeepsOrder(lvs: Lvs, n: string)
    requires Orderly(lvs)
    ensures Orderly(Removed(lvs, n))
  {
    var after := Removed(lvs, n);
    forall m, x | Refers(after, m, x) ensures Firm(after, x) {
      RemoveKeepsReference(lvs, n, m, x);
      assert x in after ==> Refers(lvs, m, x);
    }
  }

  lemma RemoveKeepsReference(lvs: Lvs, n: string, m: string, x: string)
    requires "" !in lvs && Refers(Removed(lvs, n), m, x)
    ensures x == "" || Refers(lvs, m, x)
  {
  }

  // A copy takes the name it waited for.
  lemma RenameKeepsOrder(lvs: Lvs, n: string)
    requires Orderly(lvs) && Waits(lvs, n) && lvs[n].rollbackTarget !in lvs
    ensures Orderly(Renamed(lvs, n, lvs[n].rollbackTarget))
  {
    var y := lvs[n].rollbackTarget;
    var after := Renamed(lvs, n, y);
    forall m, x | Refers(after, m, x) ensures Firm(after, x) {
      if x != y && x != n {
        assert Refers(lvs, m, x);
      }
    }
  }
}
