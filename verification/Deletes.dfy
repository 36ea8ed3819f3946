/** Deleting a volume with its snapshots: MarkDeleting (internal/storage/volumes.go) and the removals
    in the background (runDelete in internal/api/api.go), cut anywhere and recovered.
  */
module Deletes {
  import opened Lvm
  import opened Recover
  import opened Order
  import opened Clients
  import opened Pins
  import opened Volumes

  // Some volumes marked for deletion, nothing else changed.
  function Marked(lvs: Lvs, names: set<string>): Lvs {
    map n | n in lvs :: if n in names then lvs[n].(state := Deleting) else lvs[n]
  }

  lemma MarkOne(lvs: Lvs, names: set<string>, n: string)
    requires n in lvs
    ensures Apply(Marked(lvs, names), Change(n, Become(Deleting))) == Marked(lvs, names + {n})
  {
  }

  lemma MarkedNone(lvs: Lvs)
    ensures Marked(lvs, {}) == lvs
  {
  }

  lemma MarkedIs(lvs: Lvs, names: set<string>, n: string)
    requires n in lvs
    ensures n in Marked(lvs, names)
    ensures Marked(lvs, names)[n] == if n in names then lvs[n].(state := Deleting) else lvs[n]
  {
  }

  // A snapshot can be marked at any time.
  lemma MarkSnapshotKeeps(lvs: Lvs, s: string, orderly: bool)
    requires Quiet(lvs) && (orderly ==> Orderly(lvs)) && Has(lvs, s, {Snapshot, Deleting})
    ensures var after := lvs[s := lvs[s].(state := Deleting)];
            Quiet(after) && (orderly ==> Orderly(after))
  {
    if orderly {
      EditKeepsOrder(lvs, s, lvs[s].(state := Deleting));
    }
  }

  // A volume once no snapshot refers to it, unless a copy does.
  lemma MarkVolumeKeeps(lvs: Lvs, n: string, orderly: bool)
    requires Quiet(lvs) && (orderly ==> Orderly(lvs) && !Claimed(lvs, n)) && n in lvs
    ensures var after := lvs[n := lvs[n].(state := Deleting)];
            Quiet(after) && (orderly ==> Orderly(after))
  {
    if orderly {
      EditKeepsOrder(lvs, n, lvs[n].(state := Deleting));
    }
  }

  // With its snapshots marked, only a waiting copy still claims a volume.
  lemma ClaimedAfterMarks(lvs: Lvs, names: set<string>, id: string)
    requires forall s :: IsSnapshotOf(lvs, s, id) ==> s in names
    requires Claimed(Marked(lvs, names), id)
    ensures Awaited(lvs, id)
  {
    var n :| Refers(Marked(lvs, names), n, id);
    assert !IsSnapshotOf(lvs, n, id) || n in names;
    assert Waits(lvs, n) && lvs[n].rollbackTarget == id;
  }

  method AnyPinned(pins: ExportPins, snapshots: seq<string>) returns (pinned: bool)
    requires pins.Valid()
    ensures pinned <==> exists s :: s in snapshots && s in pins.readers
  {
    for i := 0 to |snapshots|
      invariant forall j :: 0 <= j < i ==> snapshots[j] !in pins.readers
    {
      pinned := pins.Pinned(snapshots[i]);
      if pinned {
        assert snapshots[i] in snapshots;
        return true;
      }
    }
    pinned := false;
  }

  // The checks before the first mark. Done lists the snapshots that go with the volume.
  method CheckDeletable(c: Client, pins: ExportPins, id: string, force: bool)
      returns (r: Result, snapshots: seq<string>)
    requires pins.Valid()
    modifies c`failed
    ensures Told(old(c.failed), c.failed, !r.LvmFailed?) && (Simple(r) || r.HasSnapshots? || r.ExportInProgress?)
    ensures Checked(r, c.lvs, c.lvs, id, {Ready, Retired})
    ensures r.HasSnapshots? ==> !force && exists s :: IsSnapshotOf(c.lvs, s, id)
    ensures r.ExportInProgress? ==> exists s :: IsSnapshotOf(c.lvs, s, id) && s in pins.readers
    ensures r.Done? ==>
              && (forall s :: s in snapshots <==> IsSnapshotOf(c.lvs, s, id))
              && (force || snapshots == [])
              && (forall s :: s in snapshots ==> s !in pins.readers)
  {
    var volume := c.GetVolume(id);
    if !volume.Found? || volume.lv.state !in {Ready, Retired} {
      return Refusal(volume), [];
    }
    var ok;
    ok, snapshots := SnapshotsOf(c, id);
    if !ok {
      return LvmFailed, [];
    }
    if |snapshots| > 0 && !force {
      assert snapshots[0] in snapshots;
      return HasSnapshots, [];
    }
    var pinned := AnyPinned(pins, snapshots);
    r := if pinned then ExportInProgress else Done;
  }

  // Some of the volume's snapshots are marked, the volume itself only after all of them.
  ghost predicate MarkedInOrder(before: Lvs, after: Lvs, id: string, names: set<string>) {
    && after == Marked(before, names)
    && (forall s :: s in names ==> s == id || IsSnapshotOf(before, s, id))
    && (id in names ==> forall s :: IsSnapshotOf(before, s, id) ==> s in names)
  }

  ghost predicate MarkingPoint(before: Lvs, state: Lvs, id: string) {
    exists names :: MarkedInOrder(before, state, id, names)
  }

  lemma MarksOfSnapshots(before: Lvs, state: Lvs, id: string, within: set<string>)
    requires PartlyMarked(before, state, within) && id !in within
    requires forall s :: s in within ==> IsSnapshotOf(before, s, id)
    ensures MarkingPoint(before, state, id)
  {
    var names :| names <= within && state == Marked(before, names);
    assert MarkedInOrder(before, state, id, names);
  }

  // Marks the snapshots first and the volume last, at every crash point. Every refusal comes before
  // the first mark, and a pinned snapshot keeps its tags whatever happens.
  method MarkDeleting(c: Client, pins: ExportPins, id: string, force: bool)
      returns (r: Result, snapshots: seq<string>, ghost marked: set<string>)
    requires c.Valid() && pins.Valid()
    modifies c
    ensures c.Valid() && old(c.trace) <= c.trace
    ensures Told(old(c.failed), c.failed, !r.LvmFailed?) && (Simple(r) || r.HasSnapshots? || r.ExportInProgress?)
    ensures c.reused ==> old(c.reused) || Awaited(old(c.lvs), id)
    ensures Checked(r, old(c.lvs), c.lvs, id, {Ready, Retired})
    ensures r.HasSnapshots? ==> !force && exists s :: IsSnapshotOf(old(c.lvs), s, id)
    ensures r.ExportInProgress? ==> exists s :: IsSnapshotOf(old(c.lvs), s, id) && s in pins.readers
    ensures MarkedInOrder(old(c.lvs), c.lvs, id, marked)
    ensures forall i :: |old(c.trace)| <= i < |c.trace| ==> MarkingPoint(old(c.lvs), c.trace[i], id)
    ensures r.Done? ==>
              && (forall s :: s in snapshots <==> IsSnapshotOf(old(c.lvs), s, id))
              && (force || snapshots == [])
              && marked == Names(snapshots) + {id}
    ensures forall s :: s in pins.readers && s != id ==> s !in marked
  {
    hide Quiet, Orderly, KeptAlong, Awaited, Marked;
    ghost var before := c.lvs;
    marked := {};
    MarkedNone(before);
    r, snapshots := CheckDeletable(c, pins, id, force);
    if !r.Done? {
      return;
    }
    var ok;
    ok, marked := MarkAll(c, id, snapshots);
    r := if ok then Done else LvmFailed;
  }

  // The marks, once the checks have passed.
  method MarkAll(c: Client, id: string, snapshots: seq<string>) returns (ok: bool, ghost marked: set<string>)
    requires c.Valid() && id in c.lvs && id !in snapshots && forall s :: s in snapshots <==> IsSnapshotOf(c.lvs, s, id)
    modifies c
    ensures c.Valid() && old(c.trace) <= c.trace && Told(old(c.failed), c.failed, ok)
    ensures c.reused ==> old(c.reused) || Awaited(old(c.lvs), id)
    ensures MarkedInOrder(old(c.lvs), c.lvs, id, marked) && marked <= Names(snapshots) + {id}
    ensures forall i :: |old(c.trace)| <= i < |c.trace| ==> MarkingPoint(old(c.lvs), c.trace[i], id)
    ensures ok ==> marked == Names(snapshots) + {id}
  {
    hide Quiet, Orderly, KeptAlong, Claimed, Awaited, Owned, Marked;
    ghost var before := c.lvs;
    ok, marked := MarkSnapshots(c, id, snapshots);
    forall i | |old(c.trace)| <= i < |c.trace| ensures MarkingPoint(before, c.trace[i], id) {
      MarksOfSnapshots(before, c.trace[i], id, Names(snapshots));
    }
    if ok {
      ok, marked := MarkVolume(c, id, before, marked);
      assert MarkedInOrder(before, c.lvs, id, marked);
    }
  }

  method MarkVolume(c: Client, id: string, ghost before: Lvs, ghost names: set<string>)
      returns (ok: bool, ghost marked: set<string>)
    requires c.Valid() && id in before && c.lvs == Marked(before, names)
    requires forall s :: IsSnapshotOf(before, s, id) ==> s in names
    modifies c
    ensures c.Valid() && c.trace == old(c.trace) + [c.lvs]
    ensures c.reused ==> old(c.reused) || Awaited(before, id)
    ensures Told(old(c.failed), c.failed, ok)
    ensures c.lvs == Marked(before, marked) && (marked == names || marked == names + {id})
    ensures ok ==> marked == names + {id}
  {
    hide Quiet, Orderly, KeptAlong, Claimed, Awaited;
    c.Now();
    MarkVolumeKeeps(c.lvs, id, !c.reused && !Claimed(c.lvs, id));
    if Claimed(c.lvs, id) {
      ClaimedAfterMarks(before, names, id);
    }
    MarkOne(before, names, id);
    ghost var lied;
    ok, lied := c.Run(Change(id, Become(Deleting)), Claimed(c.lvs, id));
    marked := if ok || lied then names + {id} else names;
  }

  function Names(s: seq<string>): set<string> {
    set n | n in s
  }

  // Some of a set of volumes are marked.
  ghost predicate PartlyMarked(before: Lvs, state: Lvs, within: set<string>) {
    exists names :: names <= within && state == Marked(before, names)
  }

  method MarkSnapshots(c: Client, id: string, snapshots: seq<string>) returns (ok: bool, ghost marked: set<string>)
    requires c.Valid() && forall s :: s in snapshots ==> Has(c.lvs, s, {Snapshot})
    modifies c
    ensures c.Valid() && c.reused == old(c.reused) && old(c.trace) <= c.trace
    ensures c.lvs == Marked(old(c.lvs), marked) && marked <= Names(snapshots)
    ensures forall i :: |old(c.trace)| <= i < |c.trace| ==> PartlyMarked(old(c.lvs), c.trace[i], Names(snapshots))
    ensures ok ==> marked == Names(snapshots)
    ensures Told(old(c.failed), c.failed, ok)
  {
    hide Quiet, Orderly, KeptAlong, Marked;
    MarkedNone(c.lvs);
    marked := {};
    var i := 0;
    while i < |snapshots|
      invariant 0 <= i <= |snapshots| && c.Valid() && c.reused == old(c.reused) && old(c.trace) <= c.trace
      invariant c.failed == old(c.failed)
      invariant forall j :: |old(c.trace)| <= j < |c.trace| ==> PartlyMarked(old(c.lvs), c.trace[j], Names(snapshots))
      invariant marked == Names(snapshots[..i]) && c.lvs == Marked(old(c.lvs), marked)
    {
      c.Now();
      assert snapshots[i] in snapshots;
      MarkedIs(old(c.lvs), marked, snapshots[i]);
      MarkSnapshotKeeps(c.lvs, snapshots[i], !c.reused);
      MarkOne(old(c.lvs), marked, snapshots[i]);
      ghost var lied;
      ok, lied := c.Run(Change(snapshots[i], Become(Deleting)), false);
      if !ok {
        marked := if lied then marked + {snapshots[i]} else marked;
        return false, marked;
      }
      marked := marked + {snapshots[i]};
      i := i + 1;
      assert snapshots[..i] == snapshots[..i - 1] + [snapshots[i - 1]];
    }
    assert snapshots[..i] == snapshots;
    ok := true;
  }

  // ----------------------------------------------------------------------------- removal

  // The lvs without the named ones, removed in order.
  function RemovedAll(lvs: Lvs, names: seq<string>): Lvs {
    if names == [] then lvs else Removed(RemovedAll(lvs, names[..|names| - 1]), names[|names| - 1])
  }

  lemma {:induction false} RemovedAllKeeps(lvs: Lvs, names: seq<string>, n: string)
    ensures n in RemovedAll(lvs, names) <==> n in lvs && n !in names
    ensures n in lvs && n !in names ==>
              RemovedAll(lvs, names)[n] == lvs[n].(lvmOrigin := RemovedAll(lvs, names)[n].lvmOrigin)
  {
    if names != [] {
      var last := |names| - 1;
      RemovedAllKeeps(lvs, names[..last], n);
      assert names == names[..last] + [names[last]];
    }
  }

  ghost predicate RemovalPoint(before: Lvs, state: Lvs, targets: seq<string>) {
    exists k :: 0 <= k <= |targets| && state == RemovedAll(before, targets[..k])
  }

  lemma RemovedNext(lvs: Lvs, targets: seq<string>, i: nat)
    requires i < |targets|
    ensures RemovedAll(lvs, targets[..i + 1]) == Removed(RemovedAll(lvs, targets[..i]), targets[i])
  {
    assert targets[..i + 1][..i] == targets[..i];
  }

  // The background half of a delete: the snapshots, then the volume, until a removal fails.
  method RunDelete(c: Client, id: string, snapshots: seq<string>) returns (ok: bool, ghost removed: nat)
    requires c.Valid()
    modifies c
    ensures c.Valid() && c.reused == old(c.reused) && old(c.trace) <= c.trace
    ensures removed <= |snapshots| + 1 && c.lvs == RemovedAll(old(c.lvs), (snapshots + [id])[..removed])
    ensures forall i :: |old(c.trace)| <= i < |c.trace| ==> RemovalPoint(old(c.lvs), c.trace[i], snapshots + [id])
    ensures ok ==> removed == |snapshots| + 1
    ensures Told(old(c.failed), c.failed, ok)
  {
    hide Quiet, Orderly, KeptAlong, Removed;
    var targets := snapshots + [id];
    var i := 0;
    while i < |targets|
      invariant 0 <= i <= |targets| && c.Valid() && c.reused == old(c.reused) && old(c.trace) <= c.trace
      invariant c.lvs == RemovedAll(old(c.lvs), targets[..i]) && c.failed == old(c.failed)
      invariant forall j :: |old(c.trace)| <= j < |c.trace| ==> RemovalPoint(old(c.lvs), c.trace[j], targets)
    {
      ghost var before := c.lvs;
      RemovedNext(old(c.lvs), targets, i);
      ok := RemoveVolume(c, targets[i]);
      if !ok {
        removed := if c.lvs == before then i else i + 1;
        return;
      }
      i := i + 1;
    }
    removed := i;
    ok := true;
  }

  // ------------------------------------------------------------- a delete cut and recovered

  // A delete at some crash point: some volumes marked in order, some of the marked ones removed.
  ghost predicate DeletePoint(before: Lvs, now: Lvs, id: string, names: set<string>, gone: seq<string>) {
    && MarkedInOrder(before, Marked(before, names), id, names)
    && (forall n :: n in gone ==> n in names)
    && now == RemovedAll(Marked(before, names), gone)
  }

  // Both phases stop at such points.
  lemma MarkingIsDeletePoint(before: Lvs, now: Lvs, id: string, names: set<string>)
    requires MarkedInOrder(before, now, id, names)
    ensures DeletePoint(before, now, id, names, [])
  {
  }

  lemma RemovalIsDeletePoint(before: Lvs, now: Lvs, id: string, snapshots: seq<string>, k: nat)
    requires MarkedInOrder(before, Marked(before, Names(snapshots) + {id}), id, Names(snapshots) + {id})
    requires k <= |snapshots| + 1 && now == RemovedAll(Marked(before, Names(snapshots) + {id}), (snapshots + [id])[..k])
    ensures DeletePoint(before, now, id, Names(snapshots) + {id}, (snapshots + [id])[..k])
  {
  }

  ghost predicate IsDeletePoint(before: Lvs, now: Lvs, id: string) {
    exists names, gone :: DeletePoint(before, now, id, names, gone)
  }

  lemma MarkingPointIs(before: Lvs, now: Lvs, id: string)
    requires MarkingPoint(before, now, id)
    ensures IsDeletePoint(before, now, id)
  {
    var names :| MarkedInOrder(before, now, id, names);
    MarkingIsDeletePoint(before, now, id, names);
  }

  lemma RemovalPointIs(before: Lvs, marked: Lvs, now: Lvs, id: string, snapshots: seq<string>)
    requires MarkedInOrder(before, marked, id, Names(snapshots) + {id}) && RemovalPoint(marked, now, snapshots + [id])
    ensures IsDeletePoint(before, now, id)
  {
    var k: nat :| k <= |snapshots + [id]| && now == RemovedAll(marked, (snapshots + [id])[..k]);
    RemovalIsDeletePoint(before, now, id, snapshots, k);
  }

  // DeleteVolume with its background half: whatever fails, every recorded state is a point the
  // recovery theorem below is about. Done and removed means volume and snapshots are gone.
  method DeleteVolume(c: Client, pins: ExportPins, id: string, force: bool) returns (r: Result, removed: bool)
    requires c.Valid() && pins.Valid()
    modifies c
    ensures c.Valid() && old(c.trace) <= c.trace && old(c.failed) <= c.failed
    ensures c.reused ==> old(c.reused) || Awaited(old(c.lvs), id)
    ensures Checked(r, old(c.lvs), c.lvs, id, {Ready, Retired})
    ensures forall i :: |old(c.trace)| <= i < |c.trace| ==> IsDeletePoint(old(c.lvs), c.trace[i], id)
    ensures r.HasSnapshots? ==> !force && exists s :: IsSnapshotOf(old(c.lvs), s, id)
    ensures r.ExportInProgress? ==> exists s :: IsSnapshotOf(old(c.lvs), s, id) && s in pins.readers
    ensures r.HasSnapshots? || r.ExportInProgress? ==> c.lvs == old(c.lvs)
    ensures (r.LvmFailed? ==> old(c.failed) < c.failed) && (Simple(r) || r.HasSnapshots? || r.ExportInProgress?)
    ensures removed ==>
              && r.Done? && c.failed == old(c.failed) && id !in c.lvs
              && forall s :: IsSnapshotOf(old(c.lvs), s, id) ==> s !in c.lvs
    ensures !removed && r.Done? ==> old(c.failed) < c.failed
  {
    hide Quiet, Orderly, KeptAlong, Awaited, MarkedInOrder, MarkingPoint, RemovalPoint, RemovedAll, IsDeletePoint;
    ghost var before, marks, done := c.lvs, c.trace, 0;
    var snapshots;
    ghost var marked;
    r, snapshots, marked := MarkDeleting(c, pins, id, force);
    removed := false;
    ghost var mid := c.lvs;
    forall i | |old(c.trace)| <= i < |c.trace| ensures IsDeletePoint(before, c.trace[i], id) {
      MarkingPointIs(before, c.trace[i], id);
    }
    marks := c.trace;
    if r.Done? {
      removed, done := RunDelete(c, id, snapshots);
      forall i | |marks| <= i < |c.trace| ensures IsDeletePoint(before, c.trace[i], id) {
        RemovalPointIs(before, mid, c.trace[i], id, snapshots);
      }
      assert (snapshots + [id])[..|snapshots| + 1] == snapshots + [id];
      forall n | removed && (n == id || n in snapshots) ensures n !in c.lvs {
        RemovedAllKeeps(mid, snapshots + [id], n);
      }
    }
  }

  lemma MarkedIsOrderly(lvs: Lvs, id: string, names: set<string>)
    requires Orderly(lvs) && !Awaited(lvs, id) && MarkedInOrder(lvs, Marked(lvs, names), id, names)
    ensures Orderly(Marked(lvs, names))
  {
    var after := Marked(lvs, names);
    forall m, x | Refers(after, m, x) ensures Firm(after, x) {
      assert Refers(lvs, m, x);
      assert x in names && x != id ==> IsSnapshotOf(lvs, x, id);
      assert x == id && lvs[m].state == Snapshot ==> IsSnapshotOf(lvs, m, id);
    }
  }

  lemma {:induction false} RemovedAllIsOrderly(lvs: Lvs, gone: seq<string>)
    requires Orderly(lvs)
    ensures Orderly(RemovedAll(lvs, gone))
  {
    hide Orderly;
    if gone != [] {
      RemovedAllIsOrderly(lvs, gone[..|gone| - 1]);
      RemoveKeepsOrder(RemovedAll(lvs, gone[..|gone| - 1]), gone[|gone| - 1]);
    }
  }

  lemma DeletePointIsOrderly(lvs: Lvs, now: Lvs, id: string, names: set<string>, gone: seq<string>)
    requires Orderly(lvs) && !Awaited(lvs, id) && DeletePoint(lvs, now, id, names, gone)
    ensures Orderly(now)
  {
    hide Orderly, Awaited, MarkedInOrder;
    MarkedIsOrderly(lvs, id, names);
    RemovedAllIsOrderly(Marked(lvs, names), gone);
  }

  // The record of a volume at such a point.
  lemma RecordAt(lvs: Lvs, now: Lvs, id: string, names: set<string>, gone: seq<string>, n: string)
    requires DeletePoint(lvs, now, id, names, gone)
    ensures n in now ==> n in lvs && now[n] == Marked(lvs, names)[n].(lvmOrigin := now[n].lvmOrigin)
    ensures n in lvs && n !in names ==> n in now
  {
    RemovedAllKeeps(Marked(lvs, names), gone, n);
  }

  // What is marked is gone for good.
  lemma MarkedGoes(lvs: Lvs, now: Lvs, id: string, names: set<string>, gone: seq<string>, n: string)
    requires Orderly(lvs) && !Awaited(lvs, id) && DeletePoint(lvs, now, id, names, gone) && n in names
    ensures n !in Settled(now)
  {
    hide RemovedAll;
    forall k ensures !Comes(now, k, n) {
      RecordAt(lvs, now, id, names, gone, k);
      assert k in now && FateOf(now, k) == Moves(n) ==> Refers(lvs, k, n);
      assert n != id ==> IsSnapshotOf(lvs, n, id) || n !in lvs;
    }
  }

  // What is not marked stays what it is.
  lemma UnmarkedStays(lvs: Lvs, now: Lvs, id: string, names: set<string>, gone: seq<string>, n: string)
    requires Orderly(lvs) && !Awaited(lvs, id) && DeletePoint(lvs, now, id, names, gone) && n !in names
    requires Has(lvs, n, {Ready, Retired, Snapshot})
    ensures n in Settled(now) && Settled(now)[n].state == lvs[n].state && Settled(now)[n].content == lvs[n].content
  {
    hide Orderly, Settled, DeletePoint, Awaited;
    DeletePointIsOrderly(lvs, now, id, names, gone);
    OrderlyIsClean(now);
    RecordAt(lvs, now, id, names, gone, n);
    assert Comes(now, n, n);
    SettledFrom(now, n, n);
  }

  // A delete cut anywhere, among its marks or among its removals, and recovered: what was marked is
  // gone, what was not is still there with its bytes, whoever's it is, and the volume never goes
  // before its snapshots.
  lemma DeleteRecovers(lvs: Lvs, now: Lvs, id: string, names: set<string>, gone: seq<string>, history: seq<Attempt>)
    requires Orderly(lvs) && Has(lvs, id, {Ready, Retired}) && !Awaited(lvs, id)
    requires DeletePoint(lvs, now, id, names, gone) && Fits(now, history) && Recovered(now, history)
    ensures var r := After(now, history);
            && (id in r <==> id !in names)
            && (forall s :: IsSnapshotOf(lvs, s, id) ==> (s in r <==> s !in names))
            && (id !in r ==> forall s :: IsSnapshotOf(lvs, s, id) ==> s !in r)
            && (forall n :: n !in names && Has(lvs, n, {Ready, Retired, Snapshot}) ==>
                  n in r && r[n].state == lvs[n].state && r[n].content == lvs[n].content)
  {
    hide Orderly, Settled, Recovered, Awaited, RemovedAll;
    DeletePointIsOrderly(lvs, now, id, names, gone);
    OrderlyRecovers(now, history);
    forall s | s == id || IsSnapshotOf(lvs, s, id) ensures s in Settled(now) <==> s !in names {
      if s in names {
        MarkedGoes(lvs, now, id, names, gone, s);
      } else {
        UnmarkedStays(lvs, now, id, names, gone, s);
      }
    }
    forall n | n !in names && Has(lvs, n, {Ready, Retired, Snapshot})
      ensures n in Settled(now) && Settled(now)[n].state == lvs[n].state && Settled(now)[n].content == lvs[n].content
    {
      UnmarkedStays(lvs, now, id, names, gone, n);
    }
  }
}
