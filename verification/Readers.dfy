/** What reads snapshots: Export and releaseExport (internal/api/api.go), PushSnapshot
    (internal/api/pushsnapshot.go) and CreateVolumeFromSnapshot (internal/api/createfromsnapshot.go).

    Each request pins the snapshot before it looks at it and every path gives back what it took, so
    the pins are the live readers.
  */
module Readers {
  import opened Digest
  import opened Lvm
  import opened Recover
  import opened Order
  import opened Clients
  import opened Pins
  import opened Volumes
  import R = Reader

  // One volume's device may have come or gone.
  ghost predicate SameButActive(before: Lvs, after: Lvs, id: string) {
    after == before || (id in before && exists on :: after == before[id := before[id].(active := on)])
  }

  lemma SwitchedTwice(before: Lvs, mid: Lvs, after: Lvs, id: string)
    requires SameButActive(before, mid, id) && SameButActive(mid, after, id)
    ensures SameButActive(before, after, id)
  {
    if mid != before && after != mid {
      var on :| after == mid[id := mid[id].(active := on)];
      assert after == before[id := before[id].(active := on)];
    }
  }

  // Unpins, and deactivates after the last reader. Failures are only logged.
  method ReleaseExport(c: Client, pins: ExportPins, id: string)
    requires c.Valid() && pins.Valid()
    modifies c, pins
    ensures c.Valid() && c.reused == old(c.reused) && old(c.trace) <= c.trace
    ensures pins.Valid() && pins.readers == old(pins.readers) - multiset{id}
    ensures c.lvs == old(c.lvs) ||
            (id in old(c.lvs) && id !in pins.readers && c.lvs == old(c.lvs)[id := old(c.lvs)[id].(active := false)])
    ensures c.failed == old(c.failed) || c.failed == old(c.failed) + [Do(Deactivate(id))]
    ensures c.failed == old(c.failed) && id !in pins.readers ==> id in c.lvs && !c.lvs[id].active
  {
    var last := pins.Release(id);
    if last {
      var _ := SwitchOff(c, id);
    }
  }

  // The checks of a reader: pinned when it may go on, nothing held otherwise.
  method OpenSnapshot(c: Client, pins: ExportPins, id: string) returns (r: Result)
    requires c.Valid() && pins.Valid()
    modifies c, pins
    ensures c.Valid() && c.reused == old(c.reused) && old(c.trace) <= c.trace && pins.Valid()
    ensures r.Done? ==> Has(c.lvs, id, {Snapshot}) && c.lvs == old(c.lvs)
    ensures r.Done? ==> pins.readers == old(pins.readers) + multiset{id}
    ensures !r.Done? ==> pins.readers == old(pins.readers) && SameButActive(old(c.lvs), c.lvs, id)
    ensures r.NotFound? ==> !Owned(old(c.lvs), id)
    ensures r.WrongState? ==> !Has(old(c.lvs), id, {Snapshot})
    ensures r.Done? || r.NotFound? || r.WrongState? || r.LvmFailed?
    ensures old(c.failed) <= c.failed && (r.Done? ==> c.failed == old(c.failed))
    ensures r.LvmFailed? ==> old(c.failed) < c.failed
  {
    hide ExportPins.Valid, Quiet, Orderly, KeptAlong, SameButActive;
    var _ := pins.Acquire(id);
    assert pins.readers - multiset{id} == old(pins.readers);
    r := CheckSnapshot(c, id);
    if !r.Done? {
      ReleaseExport(c, pins, id);
      Released(old(c.lvs), c.lvs, id);
    }
  }

  method CheckSnapshot(c: Client, id: string) returns (r: Result)
    modifies c`failed
    ensures Told(old(c.failed), c.failed, !r.LvmFailed?) && Simple(r)
    ensures r.Done? ==> Has(c.lvs, id, {Snapshot})
    ensures r.NotFound? ==> !Owned(c.lvs, id)
    ensures r.WrongState? ==> !Has(c.lvs, id, {Snapshot})
  {
    var snapshot := c.GetVolume(id);
    r := if snapshot.Found? && snapshot.lv.state == Snapshot then Done else Refusal(snapshot);
  }

  // What a reader that went through got: every non-zero chunk, and the digest of the content.
  predicate AllRead(sha: Sha, content: Bytes, frames: seq<R.Frame>, digest: Hash)
    requires |content| < TWO_63
  {
    frames == R.Frames(content, NumChunks(|content|)) && digest == ContentDigest(sha, content)
  }

  // How an export fares outside lvm: whether the device opens, how many of its chunks can be read,
  // and how many frames the client takes before it goes away.
  datatype Reading = Reading(opens: bool, readable: nat, takes: nat)

  predicate ReadsAll(reading: Reading, content: Bytes) {
    && reading.opens && NumChunks(|content|) <= reading.readable
    && |R.Frames(content, NumChunks(|content|))| <= reading.takes
  }

  // Brings the snapshot up and streams it to the client.
  method StreamSnapshot(c: Client, sha: Sha, id: string, reading: Reading)
      returns (ok: bool, frames: seq<R.Frame>, digest: Hash)
    requires c.Valid() && Has(c.lvs, id, {Snapshot}) && |c.lvs[id].content| < TWO_63
    modifies c
    ensures c.Valid() && c.reused == old(c.reused) && old(c.trace) <= c.trace && old(c.failed) <= c.failed
    ensures SameButActive(old(c.lvs), c.lvs, id)
    ensures ok ==> AllRead(sha, old(c.lvs)[id].content, frames, digest)
    ensures c.failed == old(c.failed) ==> (ok <==> ReadsAll(reading, old(c.lvs)[id].content))
  {
    hide Quiet, Orderly, KeptAlong, SameButActive;
    frames, digest := [], Zeros(HASH_BYTES);
    ok := BringUp(c, id, true);
    SwitchedOn(old(c.lvs), c.lvs, id);
    if ok {
      var device := c.OpenDevice(id);
      var read;
      ok, frames, digest, read := R.ReadDevice(sha, device, reading.opens, reading.readable, reading.takes);
    }
  }

  // An export up to the end of its stream: the device goes with the last reader.
  method ReadSnapshot(c: Client, pins: ExportPins, sha: Sha, id: string, reading: Reading)
      returns (ok: bool, frames: seq<R.Frame>, digest: Hash)
    requires c.Valid() && pins.Valid() && Has(c.lvs, id, {Snapshot}) && id in pins.readers
    requires |c.lvs[id].content| < TWO_63
    modifies c, pins
    ensures c.Valid() && c.reused == old(c.reused) && old(c.trace) <= c.trace
    ensures pins.Valid() && pins.readers == old(pins.readers) - multiset{id}
    ensures SameButActive(old(c.lvs), c.lvs, id) && old(c.failed) <= c.failed
    ensures c.failed == old(c.failed) && id !in pins.readers ==> id in c.lvs && !c.lvs[id].active
    ensures ok ==> AllRead(sha, old(c.lvs)[id].content, frames, digest)
    ensures c.failed == old(c.failed) ==> (ok <==> ReadsAll(reading, old(c.lvs)[id].content))
  {
    hide ExportPins.Valid, Quiet, Orderly, KeptAlong, SameButActive, AllRead, ReadsAll;
    ok, frames, digest := StreamSnapshot(c, sha, id, reading);
    ghost var mid := c.lvs;
    ReleaseExport(c, pins, id);
    Released(mid, c.lvs, id);
    SwitchedTwice(old(c.lvs), mid, c.lvs, id);
  }

  // The client gets every frame of the snapshot and its digest, or an error, and no error without a
  // cause.
  method Export(c: Client, pins: ExportPins, sha: Sha, id: string, reading: Reading)
      returns (r: Result, frames: seq<R.Frame>, digest: Hash)
    requires c.Valid() && pins.Valid() && (id in c.lvs ==> |c.lvs[id].content| < TWO_63)
    modifies c, pins
    ensures c.Valid() && c.reused == old(c.reused) && old(c.trace) <= c.trace
    ensures pins.Valid() && pins.readers == old(pins.readers)
    ensures SameButActive(old(c.lvs), c.lvs, id)
    ensures r.Done? ==>
              Has(old(c.lvs), id, {Snapshot}) && AllRead(sha, old(c.lvs)[id].content, frames, digest)
    ensures c.failed == old(c.failed) ==>
              (r.Done? <==> Has(old(c.lvs), id, {Snapshot}) && ReadsAll(reading, old(c.lvs)[id].content))
    ensures r.NotFound? ==> !Owned(old(c.lvs), id)
    ensures r.WrongState? ==> !Has(old(c.lvs), id, {Snapshot})
    ensures r.Done? || r.NotFound? || r.WrongState? || r.LvmFailed?
    ensures c.failed == old(c.failed) && Has(old(c.lvs), id, {Snapshot}) && id !in pins.readers ==>
              id in c.lvs && !c.lvs[id].active
  {
    hide ExportPins.Valid, Quiet, Orderly, KeptAlong, SameButActive, AllRead, ReadsAll;
    frames, digest := [], Zeros(HASH_BYTES);
    r := OpenSnapshot(c, pins, id);
    if r.Done? {
      var ok;
      ok, frames, digest := ReadSnapshot(c, pins, sha, id, reading);
      r := if ok then Done else LvmFailed;
      assert pins.readers == old(pins.readers);
    }
  }

  // ------------------------------------------------------------- a new volume from a snapshot

  // The request: on success the pin is handed to the background copy.
  method CreateVolumeFromSnapshot(c: Client, pins: ExportPins, id: string, snapshot: string) returns (r: Result)
    requires c.Valid() && pins.Valid()
    modifies c, pins
    ensures c.Valid() && c.reused == old(c.reused) && old(c.trace) <= c.trace && pins.Valid()
    ensures r.Done? ==>
              && Has(c.lvs, snapshot, {Snapshot}) && id !in c.lvs && c.lvs == old(c.lvs)
              && pins.readers == old(pins.readers) + multiset{snapshot}
    ensures !r.Done? ==> pins.readers == old(pins.readers) && SameButActive(old(c.lvs), c.lvs, snapshot)
    ensures r.AlreadyExists? ==> id in c.lvs
    ensures r.NotFound? ==> !Owned(old(c.lvs), snapshot)
    ensures r.WrongState? ==> !Has(old(c.lvs), snapshot, {Snapshot})
    ensures r.LvmFailed? ==> old(c.failed) < c.failed
    ensures r.Done? || r.AlreadyExists? || r.NotFound? || r.WrongState? || r.LvmFailed?
  {
    hide ExportPins.Valid, Quiet, Orderly, KeptAlong, SameButActive;
    r := OpenSnapshot(c, pins, snapshot);
    if r.Done? {
      ghost var before := c.lvs;
      var ok, present := c.VolumeExists(id);
      if !ok || present {
        ReleaseExport(c, pins, snapshot);
        Released(before, c.lvs, snapshot);
        assert pins.readers == old(pins.readers);
        return if ok then AlreadyExists else LvmFailed;
      }
    }
  }

  // Everything but volume id stays, up to the snapshot's device and forgotten lvm origins.
  ghost predicate Stays(before: LV, after: LV, read: bool) {
    after == before.(lvmOrigin := after.lvmOrigin, active := if read then after.active else before.active)
  }

  ghost predicate Others(before: Lvs, after: Lvs, id: string, snapshot: string) {
    && (forall n :: n in before && n != id ==> n in after && Stays(before[n], after[n], n == snapshot))
    && (forall n :: n in after && n != id ==> n in before)
  }

  lemma OthersTwice(before: Lvs, mid: Lvs, after: Lvs, id: string, snapshot: string)
    requires Others(before, mid, id, snapshot) && Others(mid, after, id, snapshot)
    ensures Others(before, after, id, snapshot)
  {
  }

  // The steps of a copy touch the new volume and the snapshot's device only.
  lemma OneOfThem(before: Lvs, after: Lvs, id: string, snapshot: string)
    requires || after == before
             || (id in after && after == before[id := after[id]])
             || after == Removed(before, id)
             || SameButActive(before, after, snapshot)
    ensures Others(before, after, id, snapshot)
  {
  }

  // How a copy fares outside lvm: both devices open, so much can be read, so many frames can be
  // written, and the sync.
  datatype Copying = Copying(sourceOpens: bool, targetOpens: bool, readable: nat, writable: nat, syncs: bool)

  predicate CopiesAll(copying: Copying, content: Bytes) {
    && copying.sourceOpens && copying.targetOpens && copying.syncs && NumChunks(|content|) <= copying.readable
    && |R.Frames(content, NumChunks(|content|))| <= copying.writable
  }

  // Creates the target active, copies, deactivates and only then readies it.
  method CopyFromSnapshot(c: Client, sha: Sha, id: string, snapshot: string, copying: Copying) returns (ok: bool)
    requires c.Valid() && id != "" && id !in c.lvs && Has(c.lvs, snapshot, {Snapshot})
    requires |c.lvs[snapshot].content| < TWO_63
    modifies c
    ensures c.Valid() && old(c.trace) <= c.trace && (c.reused ==> old(c.reused) || Claimed(old(c.lvs), id))
    ensures Others(old(c.lvs), c.lvs, id, snapshot)
    ensures old(c.failed) <= c.failed
    ensures ok <==> c.failed == old(c.failed) && CopiesAll(copying, old(c.lvs)[snapshot].content)
    ensures ok ==>
              var content := old(c.lvs)[snapshot].content;
              id in c.lvs && c.lvs[id] == LV(Ready, false, false, content, "", "", "", "", "")
  {
    hide Quiet, Orderly, KeptAlong, Claimed, Others, SameButActive, CopiesAll;
    ghost var before := c.lvs;
    var content := c.lvs[snapshot].content;
    ok := StartCopy(c, id, snapshot);
    if !ok {
      return;
    }
    ghost var started := c.lvs;
    var written;
    ok, written := CopyBytes(c, sha, id, snapshot, copying);
    c.WriteDevice(id, written);
    OneOfThem(started, c.lvs, id, snapshot);
    OthersTwice(before, started, c.lvs, id, snapshot);
    if !ok {
      return;
    }
    ok := FinishCopy(c, id, snapshot, before);
  }

  // The copy onto a fresh target.
  method CopyBytes(c: Client, sha: Sha, id: string, snapshot: string, copying: Copying)
      returns (ok: bool, written: Bytes)
    requires snapshot in c.lvs && c.lvs[snapshot].active && |c.lvs[snapshot].content| < TWO_63
    requires id in c.lvs && c.lvs[id].active && c.lvs[id].content == Zeros(|c.lvs[snapshot].content|)
    ensures |written| == |c.lvs[id].content| && (ok ==> written == c.lvs[snapshot].content)
    ensures ok <==> CopiesAll(copying, c.lvs[snapshot].content)
  {
    var source := c.OpenDevice(snapshot);
    var target := c.OpenDevice(id);
    ok := R.CopyDevice(sha, source, target, copying.targetOpens, copying.sourceOpens, copying.readable,
        copying.writable, copying.syncs);
    written := target[..];
  }

  method StartCopy(c: Client, id: string, snapshot: string) returns (ok: bool)
    requires c.Valid() && id != "" && id !in c.lvs && Has(c.lvs, snapshot, {Snapshot})
    modifies c
    ensures c.Valid() && old(c.trace) <= c.trace && (c.reused ==> old(c.reused) || Claimed(old(c.lvs), id))
    ensures Others(old(c.lvs), c.lvs, id, snapshot)
    ensures Told(old(c.failed), c.failed, ok)
    ensures ok ==> id in c.lvs && c.lvs[id] == Thin(Creating, true, |old(c.lvs)[snapshot].content|, "")
    ensures ok ==>
              snapshot in c.lvs && c.lvs[snapshot].active && c.lvs[snapshot].content == old(c.lvs)[snapshot].content
  {
    hide Quiet, Orderly, KeptAlong, Claimed, Others, SameButActive;
    ok := CreateTarget(c, id, snapshot);
    ghost var created := c.lvs;
    OneOfThem(old(c.lvs), created, id, snapshot);
    if ok {
      ok := BringUp(c, snapshot, true);
      SwitchedOn(created, c.lvs, snapshot);
      OneOfThem(created, c.lvs, id, snapshot);
      OthersTwice(old(c.lvs), created, c.lvs, id, snapshot);
    }
  }

  // Born active for writing, the creating tag covers a crash.
  method CreateTarget(c: Client, id: string, snapshot: string) returns (ok: bool)
    requires c.Valid() && id != "" && id !in c.lvs && Has(c.lvs, snapshot, {Snapshot})
    modifies c
    ensures c.Valid() && c.trace == old(c.trace) + [c.lvs] && (c.reused ==> old(c.reused) || Claimed(old(c.lvs), id))
    ensures Told(old(c.failed), c.failed, ok)
    ensures var target := Thin(Creating, true, |old(c.lvs)[snapshot].content|, "");
            && (c.lvs == old(c.lvs) || c.lvs == old(c.lvs)[id := target])
            && (ok ==> c.lvs == old(c.lvs)[id := target])
  {
    hide Quiet, Orderly, KeptAlong, Claimed;
    var target := Thin(Creating, true, |c.lvs[snapshot].content|, "");
    c.Now();
    CreateKeeps(c.lvs, id, target, !c.reused && !Claimed(c.lvs, id));
    ghost var lied;
    ok, lied := c.Run(Create(id, target), Claimed(c.lvs, id));
    if ok {
      var volume := c.GetVolume(id);
      ok := volume.Found?;
    }
  }

  lemma SwitchedOn(before: Lvs, after: Lvs, id: string)
    requires id in before && (after == before || after == before[id := Activated(before[id], true)])
    ensures SameButActive(before, after, id)
  {
    assert Activated(before[id], true) == before[id].(active := true);
  }

  method FinishCopy(c: Client, id: string, snapshot: string, ghost before: Lvs) returns (ok: bool)
    requires c.Valid() && Has(c.lvs, id, {Creating}) && Others(before, c.lvs, id, snapshot)
    modifies c
    ensures c.Valid() && c.reused == old(c.reused) && old(c.trace) <= c.trace
    ensures Others(before, c.lvs, id, snapshot)
    ensures Told(old(c.failed), c.failed, ok)
    ensures ok ==> id in c.lvs && c.lvs[id] == old(c.lvs)[id].(state := Ready, active := false)
  {
    hide Quiet, Orderly, KeptAlong, Others, SameButActive;
    ghost var copied := c.lvs;
    ok := SwitchOff(c, id);
    ghost var idle := c.lvs;
    assert idle == copied || idle == copied[id := copied[id].(active := false)];
    OneOfThem(copied, idle, id, snapshot);
    OthersTwice(before, copied, idle, id, snapshot);
    if !ok {
      return;
    }
    ghost var lied;
    ok, lied := Retag(c, id, Become(Ready));
    assert c.lvs == idle || c.lvs == idle[id := idle[id].(state := Ready)];
    OneOfThem(idle, c.lvs, id, snapshot);
    OthersTwice(before, idle, c.lvs, id, snapshot);
  }

  // A failed copy removes its half-made target at once.
  method CopyOrCleanUp(c: Client, sha: Sha, id: string, snapshot: string, copying: Copying) returns (ok: bool)
    requires c.Valid() && id != "" && id !in c.lvs && Has(c.lvs, snapshot, {Snapshot})
    requires |c.lvs[snapshot].content| < TWO_63
    modifies c
    ensures c.Valid() && old(c.trace) <= c.trace && (c.reused ==> old(c.reused) || Claimed(old(c.lvs), id))
    ensures Others(old(c.lvs), c.lvs, id, snapshot) && old(c.failed) <= c.failed
    ensures c.failed == old(c.failed) && CopiesAll(copying, old(c.lvs)[snapshot].content) ==> ok
    ensures ok ==>
              var content := old(c.lvs)[snapshot].content;
              id in c.lvs && c.lvs[id] == LV(Ready, false, false, content, "", "", "", "", "")
    ensures !ok && id in c.lvs ==> RemovalFailed(old(c.failed), c.failed, id)
  {
    hide Quiet, Orderly, KeptAlong, Claimed, Others, SameButActive, CopiesAll;
    ok := CopyFromSnapshot(c, sha, id, snapshot, copying);
    if !ok {
      ghost var left := c.lvs;
      var removed := RemoveVolume(c, id);
      OneOfThem(left, c.lvs, id, snapshot);
      OthersTwice(old(c.lvs), left, c.lvs, id, snapshot);
      assert !removed ==> c.failed[|c.failed| - 1] == Do(Remove(id));
    }
  }

  ghost predicate RemovalFailed(before: seq<Call>, after: seq<Call>, id: string) {
    exists i :: |before| <= i < |after| && after[i] == Do(Remove(id))
  }

  lemma RemovalStays(before: seq<Call>, mid: seq<Call>, after: seq<Call>, id: string)
    requires RemovalFailed(before, mid, id) && mid <= after
    ensures RemovalFailed(before, after, id)
  {
    var i :| |before| <= i < |mid| && mid[i] == Do(Remove(id));
    assert after[i] == mid[i];
  }

  // The background copy: the pin goes either way.
  method RunCopyFromSnapshot(c: Client, pins: ExportPins, sha: Sha, id: string, snapshot: string, copying: Copying)
      returns (ok: bool)
    requires c.Valid() && pins.Valid() && id != "" && id !in c.lvs && Has(c.lvs, snapshot, {Snapshot})
    requires snapshot in pins.readers && |c.lvs[snapshot].content| < TWO_63
    modifies c, pins
    ensures c.Valid() && old(c.trace) <= c.trace && (c.reused ==> old(c.reused) || Claimed(old(c.lvs), id))
    ensures pins.Valid() && pins.readers == old(pins.readers) - multiset{snapshot}
    ensures Others(old(c.lvs), c.lvs, id, snapshot)
    ensures ok ==>
              var content := old(c.lvs)[snapshot].content;
              id in c.lvs && c.lvs[id] == LV(Ready, false, false, content, "", "", "", "", "")
    ensures !ok && id in c.lvs ==> RemovalFailed(old(c.failed), c.failed, id)
    ensures old(c.failed) <= c.failed
    ensures c.failed == old(c.failed) && CopiesAll(copying, old(c.lvs)[snapshot].content) ==> ok
    ensures c.failed == old(c.failed) && snapshot !in pins.readers ==> snapshot in c.lvs && !c.lvs[snapshot].active
  {
    hide ExportPins.Valid, Quiet, Orderly, KeptAlong, Claimed, Others, SameButActive, CopiesAll;
    ok := CopyOrCleanUp(c, sha, id, snapshot, copying);
    ghost var done, told := c.lvs, c.failed;
    ReleaseExport(c, pins, snapshot);
    if !ok && id in done {
      RemovalStays(old(c.failed), told, c.failed, id);
    }
    Released(done, c.lvs, snapshot);
    OneOfThem(done, c.lvs, id, snapshot);
    OthersTwice(old(c.lvs), done, c.lvs, id, snapshot);
  }

  lemma Released(before: Lvs, after: Lvs, id: string)
    requires after == before || (id in before && after == before[id := before[id].(active := false)])
    ensures SameButActive(before, after, id)
  {
  }
}
