/** The verbs on one node's volumes and snapshots (internal/storage/volumes.go).

    Every verb checks the state, then issues its commands one by one and stops at the first that
    reports failure. The client's invariants hold after each of them.
  */
module Volumes {
  import opened Digest
  import opened Lvm
  import opened Recover
  import opened Order
  import opened Clients
  import opened Pins

  datatype Result =
    | Done | NotFound | WrongState(found: State) | AlreadyExists | HasSnapshots | ExportInProgress
    | WrongLineage | LvmFailed

  predicate Has(lvs: Lvs, id: string, states: set<State>) {
    id in lvs && lvs[id].state in states
  }

  predicate Simple(r: Result) {
    r.Done? || r.NotFound? || r.WrongState? || r.LvmFailed?
  }

  // What a verb that accepts certain states answers otherwise, without touching anything.
  ghost predicate Checked(r: Result, before: Lvs, after: Lvs, id: string, states: set<State>) {
    && (r.NotFound? ==> !Owned(before, id))
    && (r.WrongState? ==> Owned(before, id) && before[id].state == r.found && r.found !in states)
    && (r.Done? ==> Has(before, id, states))
    && (r.LvmFailed? ==> after == before || Has(before, id, states))
    && (r.Done? || r.LvmFailed? || after == before)
  }

  function Refusal(volume: Lookup): Result {
    match volume
    case Found(lv) => WrongState(lv.state)
    case Missing => NotFound
    case ScanFailed => LvmFailed
  }

  // ------------------------------------------------------------- what the verbs make of a record

  datatype Step =
    | ToAttached | ToDetached | ToDeleting | ToPushing(transfer: string, target: string) | ToCommitting
    | ToRetired | ToReverted

  function Stepped(lv: LV, step: Step): LV {
    match step
    case ToAttached => Activated(lv.(state := Attached), false)
    case ToDetached => lv.(state := Ready, active := false)
    case ToDeleting => lv.(state := Deleting)
    case ToPushing(transfer, target) => Edited(lv, BeginPush(transfer, target))
    case ToCommitting => lv.(state := Committing)
    case ToRetired => Edited(lv.(active := false), EndPush(Retired))
    case ToReverted => Edited(lv.(active := false), EndPush(Ready))
  }

  // One volume at the crash points of a verb with two commands: untouched, half way, done.
  ghost predicate OneOf(before: Lvs, now: Lvs, id: string, half: LV, done: LV) {
    now == before || now == before[id := half] || now == before[id := done]
  }

  // Every state recorded since is one of them.
  ghost predicate AllOneOf(trace: seq<Lvs>, from: nat, before: Lvs, id: string, half: LV, done: LV) {
    forall i :: from <= i < |trace| ==> OneOf(before, trace[i], id, half, done)
  }

  // -------------------------------------------------------- what the verbs' commands keep

  const VOLUME_STATES := {Ready, Attached, Pushing, Committing, Retired}

  lemma VolumeEditKeeps(lvs: Lvs, n: string, lv: LV, orderly: bool)
    requires Quiet(lvs) && (orderly ==> Orderly(lvs)) && n in lvs && Still(lv)
    requires lv.lvmOrigin == lvs[n].lvmOrigin && lv.state in VOLUME_STATES
    ensures Quiet(lvs[n := lv]) && (orderly ==> Orderly(lvs[n := lv]))
  {
    if orderly {
      EditKeepsOrder(lvs, n, lv);
    }
  }

  lemma RemoveKeeps(lvs: Lvs, n: string, orderly: bool)
    requires Quiet(lvs) && (orderly ==> Orderly(lvs))
    ensures Quiet(Removed(lvs, n)) && (orderly ==> Orderly(Removed(lvs, n)))
  {
    if orderly {
      RemoveKeepsOrder(lvs, n);
    }
  }

  lemma CreateKeeps(lvs: Lvs, n: string, lv: LV, orderly: bool)
    requires Quiet(lvs) && (orderly ==> Orderly(lvs) && !Claimed(lvs, n)) && n !in lvs && n != "" && Still(lv)
    requires lv.lvmOrigin == "" && lv.state in {Creating, Incoming}
    ensures Quiet(lvs[n := lv]) && (orderly ==> Orderly(lvs[n := lv]))
  {
    if orderly {
      CreateKeepsOrder(lvs, n, lv);
    }
  }

  lemma RenameKeeps(lvs: Lvs, n: string, orderly: bool)
    requires Quiet(lvs) && (orderly ==> Orderly(lvs)) && Waits(lvs, n) && lvs[n].rollbackTarget !in lvs
    ensures var after := Renamed(lvs, n, lvs[n].rollbackTarget);
            Quiet(after) && (orderly ==> Orderly(after))
  {
    if orderly {
      RenameKeepsOrder(lvs, n);
    }
  }

  // A new volume: zeros, no skip flag, and no tag but its state's and perhaps a transfer's.
  predicate Blank(lv: LV, state: State, size: nat, transfer: string) {
    && lv.state == state && |lv.content| == size && AllZero(lv.content) && !lv.skip
    && lv.transfer == transfer && lv.target == "" && lv.rollbackTarget == "" && lv.origin == "" && lv.lvmOrigin == ""
  }

  // One lv is gone, and nothing else changed but lvm's memory of it.
  predicate OnlyGone(before: Lvs, after: Lvs, id: string) {
    && after.Keys == before.Keys - {id}
    && forall n :: n in before && n != id ==>
         && n in after
         && after[n] == before[n].(lvmOrigin := if before[n].lvmOrigin == id then "" else before[n].lvmOrigin)
  }

  lemma RemovedIsGone(lvs: Lvs, id: string)
    ensures OnlyGone(lvs, Removed(lvs, id), id)
  {
  }

  // ------------------------------------------------------------------------ single commands

  method RemoveVolume(c: Client, id: string) returns (ok: bool)
    requires c.Valid()
    modifies c
    ensures c.Valid() && c.reused == old(c.reused) && c.trace == old(c.trace) + [c.lvs]
    ensures c.lvs == old(c.lvs) || c.lvs == Removed(old(c.lvs), id)
    ensures ok ==> id in old(c.lvs) && c.lvs == Removed(old(c.lvs), id)
    ensures c.failed == if ok then old(c.failed) else old(c.failed) + [Do(Remove(id))]
  {
    hide Quiet, Orderly, KeptAlong;
    c.Now();
    RemoveKeeps(c.lvs, id, !c.reused);
    ghost var lied;
    ok, lied := c.Run(Remove(id), false);
  }

  method SwitchOff(c: Client, id: string) returns (ok: bool)
    requires c.Valid()
    modifies c
    ensures c.Valid() && c.reused == old(c.reused) && c.trace == old(c.trace) + [c.lvs]
    ensures c.lvs == old(c.lvs) || (id in old(c.lvs) && c.lvs == old(c.lvs)[id := old(c.lvs)[id].(active := false)])
    ensures ok ==> id in c.lvs && !c.lvs[id].active
    ensures c.failed == if ok then old(c.failed) else old(c.failed) + [Do(Deactivate(id))]
  {
    hide Quiet, Orderly, KeptAlong;
    c.Now();
    if id in c.lvs {
      EditKeepsBoth(c.lvs, id, c.lvs[id].(active := false), !c.reused);
    }
    ghost var lied;
    ok, lied := c.Run(Deactivate(id), false);
  }

  // Only volumes that are not READY, RETIRED or ROLLBACK are ever activated.
  method SwitchOn(c: Client, id: string, ignoreSkip: bool) returns (ok: bool)
    requires c.Valid() && id in c.lvs && c.lvs[id].state !in {Ready, Retired, Rollback}
    modifies c
    ensures c.Valid() && c.reused == old(c.reused) && c.trace == old(c.trace) + [c.lvs]
    ensures c.lvs == old(c.lvs) || c.lvs == old(c.lvs)[id := Activated(old(c.lvs)[id], ignoreSkip)]
    ensures ok ==> c.lvs == old(c.lvs)[id := Activated(old(c.lvs)[id], ignoreSkip)]
    ensures ok && (ignoreSkip || !old(c.lvs)[id].skip) ==> c.lvs == old(c.lvs)[id := old(c.lvs)[id].(active := true)]
    ensures ok && !ignoreSkip && old(c.lvs)[id].skip ==> c.lvs == old(c.lvs)
    ensures c.failed == if ok then old(c.failed) else old(c.failed) + [Do(Activate(id, ignoreSkip))]
  {
    hide Quiet, Orderly, KeptAlong;
    c.Now();
    EditKeepsBoth(c.lvs, id, Activated(c.lvs[id], ignoreSkip), !c.reused);
    ghost var lied;
    ok, lied := c.Run(Activate(id, ignoreSkip), false);
  }

  // Activates a volume and looks up its device, which may fail after the fact.
  method BringUp(c: Client, id: string, ignoreSkip: bool) returns (ok: bool)
    requires c.Valid() && Owned(c.lvs, id) && c.lvs[id].state !in {Ready, Retired, Rollback}
    modifies c
    ensures c.Valid() && c.reused == old(c.reused) && c.trace == old(c.trace) + [c.lvs]
    ensures c.lvs == old(c.lvs) || c.lvs == old(c.lvs)[id := Activated(old(c.lvs)[id], ignoreSkip)]
    ensures ok ==> c.lvs == old(c.lvs)[id := Activated(old(c.lvs)[id], ignoreSkip)]
    ensures ok && (ignoreSkip || !old(c.lvs)[id].skip) ==> c.lvs == old(c.lvs)[id := old(c.lvs)[id].(active := true)]
    ensures ok && !ignoreSkip && old(c.lvs)[id].skip ==> c.lvs == old(c.lvs)
    ensures Told(old(c.failed), c.failed, ok)
  {
    hide Quiet, Orderly, KeptAlong;
    ok := SwitchOn(c, id, ignoreSkip);
    if ok {
      var volume := c.GetVolume(id);
      ok := volume.Found?;
    }
  }

  // One lvchange of the tags, ending in a volume state and inactive where that state asks for it.
  method Retag(c: Client, id: string, edit: Edit) returns (ok: bool, ghost lied: bool)
    requires c.Valid() && id in c.lvs
    requires Still(Edited(c.lvs[id], edit)) && Edited(c.lvs[id], edit).state in VOLUME_STATES
    modifies c
    ensures c.Valid() && c.reused == old(c.reused) && c.trace == old(c.trace) + [c.lvs] && (lied ==> !ok)
    ensures c.lvs == if ok || lied then old(c.lvs)[id := Edited(old(c.lvs)[id], edit)] else old(c.lvs)
    ensures c.failed == if ok then old(c.failed) else old(c.failed) + [Do(Change(id, edit))]
  {
    hide Quiet, Orderly, KeptAlong;
    c.Now();
    VolumeEditKeeps(c.lvs, id, Edited(c.lvs[id], edit), !c.reused);
    ok, lied := c.Run(Change(id, edit), false);
  }

  // ------------------------------------------------------------------ create, attach, detach

  method CreateVolume(c: Client, id: string, size: nat) returns (r: Result)
    requires c.Valid() && id != ""
    modifies c
    ensures c.Valid() && old(c.trace) <= c.trace
    ensures Told(old(c.failed), c.failed, !r.LvmFailed?)
    ensures c.reused ==> old(c.reused) || Claimed(old(c.lvs), id)
    ensures r.AlreadyExists? ==> id in old(c.lvs) && c.lvs == old(c.lvs)
    ensures r.Done? ==> id !in old(c.lvs) && c.lvs == old(c.lvs)[id := Thin(Ready, false, size, "")]
    ensures r.Done? ==> Blank(c.lvs[id], Ready, size, "") && !c.lvs[id].active
    ensures r.LvmFailed? ==>
              || c.lvs == old(c.lvs)
              || (id !in old(c.lvs) && c.lvs == old(c.lvs)[id := Thin(Creating, false, size, "")])
              || (id !in old(c.lvs) && c.lvs == old(c.lvs)[id := Thin(Ready, false, size, "")])
    ensures r.AlreadyExists? || r.Done? || r.LvmFailed?
  {
    hide Quiet, Orderly, KeptAlong, Claimed;
    var ok, present := c.VolumeExists(id);
    if !ok || present {
      return if ok then AlreadyExists else LvmFailed;
    }
    c.Now();
    CreateKeeps(c.lvs, id, Thin(Creating, false, size, ""), !c.reused && !Claimed(c.lvs, id));
    ghost var lied;
    ok, lied := c.Run(Create(id, Thin(Creating, false, size, "")), Claimed(c.lvs, id));
    if !ok {
      return LvmFailed;
    }
    ok, lied := Retag(c, id, Become(Ready));
    r := if ok then Done else LvmFailed;
  }

  // The tag flips before the activation: a crash leaves an attached volume to re-activate.
  method Attach(c: Client, id: string) returns (r: Result)
    requires c.Valid()
    modifies c
    ensures c.Valid() && c.reused == old(c.reused) && old(c.trace) <= c.trace
    ensures Told(old(c.failed), c.failed, !r.LvmFailed?) && Simple(r)
    ensures Checked(r, old(c.lvs), c.lvs, id, {Ready})
    ensures r.Done? ==> c.lvs == old(c.lvs)[id := Stepped(old(c.lvs)[id], ToAttached)]
    ensures r.Done? ==>
              var lv := old(c.lvs)[id];
              c.lvs[id] == lv.(state := Attached, active := if lv.skip then lv.active else true)
    ensures Has(old(c.lvs), id, {Ready}) ==>
              var half, done := old(c.lvs)[id].(state := Attached), Stepped(old(c.lvs)[id], ToAttached);
              && OneOf(old(c.lvs), c.lvs, id, half, done)
              && AllOneOf(c.trace, |old(c.trace)|, old(c.lvs), id, half, done)
  {
    hide Quiet, Orderly, KeptAlong;
    var volume := c.GetVolume(id);
    if !volume.Found? || volume.lv.state != Ready {
      return Refusal(volume);
    }
    c.Now();
    var ok, _ := Retag(c, id, Become(Attached));
    if !ok {
      return LvmFailed;
    }
    ok := BringUp(c, id, false);
    r := if ok then Done else LvmFailed;
  }

  // The device goes before the tag: an in-use device fails the call and the volume stays attached.
  method Detach(c: Client, id: string) returns (r: Result)
    requires c.Valid()
    modifies c
    ensures c.Valid() && c.reused == old(c.reused) && old(c.trace) <= c.trace
    ensures Told(old(c.failed), c.failed, !r.LvmFailed?) && Simple(r)
    ensures Checked(r, old(c.lvs), c.lvs, id, {Attached})
    ensures r.Done? ==> c.lvs == old(c.lvs)[id := Stepped(old(c.lvs)[id], ToDetached)]
    ensures r.Done? ==> c.lvs[id] == old(c.lvs)[id].(state := Ready, active := false)
    ensures Has(old(c.lvs), id, {Attached}) ==>
              var half, done := old(c.lvs)[id].(active := false), Stepped(old(c.lvs)[id], ToDetached);
              && OneOf(old(c.lvs), c.lvs, id, half, done)
              && AllOneOf(c.trace, |old(c.trace)|, old(c.lvs), id, half, done)
  {
    hide Quiet, Orderly, KeptAlong;
    var volume := c.GetVolume(id);
    if !volume.Found? || volume.lv.state != Attached {
      return Refusal(volume);
    }
    var ok := SwitchOff(c, id);
    if !ok {
      return LvmFailed;
    }
    ghost var lied;
    ok, lied := Retag(c, id, Become(Ready));
    r := if ok then Done else LvmFailed;
  }

  // -------------------------------------------------------------------- snapshots and deletes

  function NewSnapshot(lv: LV, origin: string): LV {
    LV(Snapshot, false, true, lv.content, "", "", "", origin, origin)
  }

  // The snapshot is born inactive behind the skip flag, with its lineage on it.
  method CreateSnapshot(c: Client, id: string, snapshot: string) returns (r: Result)
    requires c.Valid() && id != "" && snapshot != ""
    modifies c
    ensures c.Valid() && old(c.trace) <= c.trace
    ensures Told(old(c.failed), c.failed, !r.LvmFailed?) && (Simple(r) || r.AlreadyExists?)
    ensures c.reused ==> old(c.reused) || Claimed(old(c.lvs), snapshot)
    ensures r.AlreadyExists? ==> snapshot in old(c.lvs)
    ensures Checked(r, old(c.lvs), c.lvs, id, {Ready, Attached})
    ensures r.Done? ==> snapshot !in old(c.lvs)
    ensures r.Done? || c.lvs != old(c.lvs) ==>
              id in old(c.lvs) && c.lvs == old(c.lvs)[snapshot := NewSnapshot(old(c.lvs)[id], id)]
    ensures r.Done? ==>
              var lv, sn := old(c.lvs)[id], c.lvs[snapshot];
              && sn.state == Snapshot && sn.content == lv.content && !sn.active && sn.skip
              && sn.origin == id && sn.lvmOrigin == id
              && sn.transfer == "" && sn.target == "" && sn.rollbackTarget == ""
              && c.lvs[id] == lv
  {
    hide Quiet, Orderly, KeptAlong, Claimed;
    var ok, present := c.VolumeExists(snapshot);
    if !ok || present {
      return if ok then AlreadyExists else LvmFailed;
    }
    var volume := c.GetVolume(id);
    if !volume.Found? || volume.lv.state !in {Ready, Attached} {
      return Refusal(volume);
    }
    c.Now();
    SnapshotKeeps(c.lvs, id, snapshot, !c.reused && !Claimed(c.lvs, snapshot));
    ghost var lied;
    ok, lied := c.Run(Create(snapshot, NewSnapshot(volume.lv, id)), Claimed(c.lvs, snapshot));
    r := if ok then Done else LvmFailed;
  }

  lemma SnapshotKeeps(lvs: Lvs, id: string, snapshot: string, orderly: bool)
    requires Quiet(lvs) && (orderly ==> Orderly(lvs) && !Claimed(lvs, snapshot)) && snapshot !in lvs && snapshot != ""
    requires Has(lvs, id, {Ready, Attached}) && id != ""
    ensures var after := lvs[snapshot := NewSnapshot(lvs[id], id)];
            Quiet(after) && (orderly ==> Orderly(after))
  {
    if orderly {
      CreateKeepsOrder(lvs, snapshot, NewSnapshot(lvs[id], id));
    }
  }

  // A pinned snapshot is never removed.
  method DeleteSnapshot(c: Client, pins: ExportPins, id: string) returns (r: Result)
    requires c.Valid() && pins.Valid()
    modifies c
    ensures c.Valid() && c.reused == old(c.reused) && old(c.trace) <= c.trace
    ensures Told(old(c.failed), c.failed, !r.LvmFailed?) && (Simple(r) || r.ExportInProgress?)
    ensures Checked(r, old(c.lvs), c.lvs, id, {Snapshot})
    ensures r.ExportInProgress? ==> Has(old(c.lvs), id, {Snapshot}) && id in pins.readers
    ensures r.Done? || c.lvs != old(c.lvs) ==> id !in pins.readers && c.lvs == Removed(old(c.lvs), id)
    ensures r.Done? ==> OnlyGone(old(c.lvs), c.lvs, id)
  {
    RemovedIsGone(c.lvs, id);
    var volume := c.GetVolume(id);
    if !volume.Found? || volume.lv.state != Snapshot {
      return Refusal(volume);
    }
    var pinned := pins.Pinned(id);
    if pinned {
      return ExportInProgress;
    }
    var ok := RemoveVolume(c, id);
    r := if ok then Done else LvmFailed;
  }

  // By the lineage tag, or by lvm's own field where the tag is missing.
  predicate IsSnapshotOf(lvs: Lvs, s: string, id: string) {
    && s in lvs && lvs[s].state == Snapshot
    && id == if lvs[s].origin != "" then lvs[s].origin else lvs[s].lvmOrigin
  }

  method SnapshotsOf(c: Client, id: string) returns (ok: bool, snapshots: seq<string>)
    modifies c`failed
    ensures Told(old(c.failed), c.failed, ok)
    ensures ok ==> forall s :: s in snapshots <==> IsSnapshotOf(c.lvs, s, id)
  {
    var volumes;
    ok, volumes := c.ListVolumes();
    snapshots := [];
    if ok {
      var i := 0;
      while i < |volumes|
        invariant 0 <= i <= |volumes| && c.lvs == old(c.lvs) && c.failed == old(c.failed)
        invariant forall s :: s in snapshots <==> s in volumes[..i] && IsSnapshotOf(c.lvs, s, id)
      {
        ListedOnce(c.lvs, volumes, i);
        var lv := c.lvs[volumes[i]];
        if lv.state == Snapshot && Lineage(lv) == id {
          snapshots := snapshots + [volumes[i]];
        }
        i := i + 1;
      }
      assert volumes[..i] == volumes;
    }
  }
}
