/** The verbs that carry a push through the tags (internal/storage/pushes.go), the receiving side's
    volume (internal/storage/transfers.go) and how one node's lvs appear in the move protocol.
  */
module Pushes {
  import opened Digest
  import opened Sessions
  import opened Lvm
  import opened Recover
  import opened Order
  import opened Clients
  import opened Volumes
  import C = Cluster

  method MarkPushing(c: Client, id: string, transfer: string, target: string) returns (r: Result)
    requires c.Valid()
    modifies c
    ensures c.Valid() && c.reused == old(c.reused) && old(c.trace) <= c.trace
    ensures Told(old(c.failed), c.failed, !r.LvmFailed?) && Simple(r)
    ensures Checked(r, old(c.lvs), c.lvs, id, {Ready})
    ensures r.Done? || c.lvs != old(c.lvs) ==>
              c.lvs == old(c.lvs)[id := Stepped(old(c.lvs)[id], ToPushing(transfer, target))]
    ensures r.Done? ==> c.lvs[id] == old(c.lvs)[id].(state := Pushing, transfer := transfer, target := target)
  {
    hide Quiet, Orderly, KeptAlong;
    var volume := c.GetVolume(id);
    if !volume.Found? || volume.lv.state != Ready {
      return Refusal(volume);
    }
    var ok, _ := Retag(c, id, BeginPush(transfer, target));
    r := if ok then Done else LvmFailed;
  }

  // Runs before CommitTransfer is sent.
  method MarkCommitting(c: Client, id: string) returns (r: Result)
    requires c.Valid()
    modifies c
    ensures c.Valid() && c.reused == old(c.reused) && old(c.trace) <= c.trace
    ensures Told(old(c.failed), c.failed, !r.LvmFailed?) && Simple(r)
    ensures Checked(r, old(c.lvs), c.lvs, id, {Pushing})
    ensures r.Done? || c.lvs != old(c.lvs) ==> c.lvs == old(c.lvs)[id := Stepped(old(c.lvs)[id], ToCommitting)]
    ensures r.Done? ==> c.lvs[id] == old(c.lvs)[id].(state := Committing)
  {
    hide Quiet, Orderly, KeptAlong;
    var volume := c.GetVolume(id);
    if !volume.Found? || volume.lv.state != Pushing {
      return Refusal(volume);
    }
    var ok, _ := Retag(c, id, Become(Committing));
    r := if ok then Done else LvmFailed;
  }

  // The device goes first, then one lvchange ends the push: a failure in between leaves the state
  // and both push tags.
  twostate predicate PushEnds(c: Client, r: Result, id: string, step: Step)
    requires id in old(c.lvs)
    reads c
  {
    var lv := old(c.lvs)[id];
    && (r.Done? ==> c.lvs == old(c.lvs)[id := Stepped(lv, step)])
    && OneOf(old(c.lvs), c.lvs, id, lv.(active := false), Stepped(lv, step))
    && AllOneOf(c.trace, |old(c.trace)|, old(c.lvs), id, lv.(active := false), Stepped(lv, step))
  }

  method EndThePush(c: Client, id: string, step: Step) returns (r: Result)
    requires c.Valid() && Has(c.lvs, id, {Pushing, Committing}) && (step.ToRetired? || step.ToReverted?)
    modifies c
    ensures c.Valid() && c.reused == old(c.reused) && old(c.trace) <= c.trace
    ensures Told(old(c.failed), c.failed, !r.LvmFailed?) && Simple(r)
    ensures (r.Done? || r.LvmFailed?) && PushEnds(c, r, id, step)
  {
    hide Quiet, Orderly, KeptAlong;
    var ok := DeactivatePushed(c, id);
    if !ok {
      return LvmFailed;
    }
    ghost var idle := c.lvs;
    ghost var lied;
    ok, lied := Retag(c, id, EndPush(if step.ToRetired? then Retired else Ready));
    assert idle[id := Stepped(old(c.lvs)[id], step)] == old(c.lvs)[id := Stepped(old(c.lvs)[id], step)];
    r := if ok then Done else LvmFailed;
  }

  // READY and RETIRED volumes are inactive.
  method DeactivatePushed(c: Client, id: string) returns (ok: bool)
    requires c.Valid() && id in c.lvs
    modifies c
    ensures c.Valid() && c.reused == old(c.reused) && (c.trace == old(c.trace) || c.trace == old(c.trace) + [c.lvs])
    ensures var idle := old(c.lvs)[id := old(c.lvs)[id].(active := false)];
            (c.lvs == old(c.lvs) || c.lvs == idle) && (ok ==> c.lvs == idle)
    ensures Told(old(c.failed), c.failed, ok)
  {
    hide Quiet, Orderly, KeptAlong;
    ok := true;
    if c.lvs[id].active {
      ok := SwitchOff(c, id);
    }
  }

  // Only once the destination has committed.
  method RetirePushed(c: Client, id: string) returns (r: Result)
    requires c.Valid()
    modifies c
    ensures c.Valid() && c.reused == old(c.reused) && old(c.trace) <= c.trace
    ensures Told(old(c.failed), c.failed, !r.LvmFailed?) && Simple(r)
    ensures Checked(r, old(c.lvs), c.lvs, id, {Committing})
    ensures Has(old(c.lvs), id, {Committing}) ==> PushEnds(c, r, id, ToRetired)
    ensures r.Done? ==>
              c.lvs[id] == old(c.lvs)[id].(state := Retired, active := false, transfer := "", target := "")
  {
    var volume := c.GetVolume(id);
    if !volume.Found? || volume.lv.state != Committing {
      return Refusal(volume);
    }
    r := EndThePush(c, id, ToRetired);
  }

  // From COMMITTING only once the destination is known not to have committed.
  method AbortPush(c: Client, id: string) returns (r: Result)
    requires c.Valid()
    modifies c
    ensures c.Valid() && c.reused == old(c.reused) && old(c.trace) <= c.trace
    ensures Told(old(c.failed), c.failed, !r.LvmFailed?) && Simple(r)
    ensures Checked(r, old(c.lvs), c.lvs, id, {Pushing, Committing})
    ensures Has(old(c.lvs), id, {Pushing, Committing}) ==> PushEnds(c, r, id, ToReverted)
    ensures r.Done? ==> c.lvs[id] == old(c.lvs)[id].(state := Ready, active := false, transfer := "", target := "")
  {
    var volume := c.GetVolume(id);
    if !volume.Found? || volume.lv.state !in {Pushing, Committing} {
      return Refusal(volume);
    }
    r := EndThePush(c, id, ToReverted);
  }

  // ------------------------------------------------------------------------ the receiving side

  // PrepareReceive's lvm half: the INCOMING volume is born active.
  method CreateIncoming(c: Client, id: string, transfer: string, size: nat) returns (r: Result)
    requires c.Valid() && id != ""
    modifies c
    ensures c.Valid() && old(c.trace) <= c.trace
    ensures Told(old(c.failed), c.failed, !r.LvmFailed?) && Simple(r)
    ensures c.reused ==> old(c.reused) || Claimed(old(c.lvs), id)
    ensures r.Done? || c.lvs != old(c.lvs) ==>
              id !in old(c.lvs) && c.lvs == old(c.lvs)[id := Thin(Incoming, true, size, transfer)]
    ensures r.Done? ==> Blank(c.lvs[id], Incoming, size, transfer) && c.lvs[id].active
    ensures r.Done? || r.LvmFailed?
  {
    hide Quiet, Orderly, KeptAlong, Claimed;
    c.Now();
    if id !in c.lvs {
      CreateKeeps(c.lvs, id, Thin(Incoming, true, size, transfer), !c.reused && !Claimed(c.lvs, id));
    }
    var ok, _ := c.Run(Create(id, Thin(Incoming, true, size, transfer)), Claimed(c.lvs, id));
    r := if ok then Done else LvmFailed;
  }

  // Commit's lvm half: deactivate, then one lvchange makes the volume READY.
  method ReadyReceived(c: Client, id: string) returns (r: Result)
    requires c.Valid() && Has(c.lvs, id, {Incoming})
    modifies c
    ensures c.Valid() && c.reused == old(c.reused) && old(c.trace) <= c.trace
    ensures Told(old(c.failed), c.failed, !r.LvmFailed?) && Simple(r)
    ensures var idle := old(c.lvs)[id].(active := false);
            && (r.Done? || r.LvmFailed?)
            && (r.Done? ==> c.lvs == old(c.lvs)[id := idle.(state := Ready, transfer := "")])
            && (r.LvmFailed? ==> OneOf(old(c.lvs), c.lvs, id, idle, idle.(state := Ready, transfer := "")))
  {
    hide Quiet, Orderly, KeptAlong;
    var ok := SwitchOff(c, id);
    if !ok {
      return LvmFailed;
    }
    ghost var lied;
    ok, lied := Retag(c, id, EndReceive);
    r := if ok then Done else LvmFailed;
  }

  // ------------------------------------------------------- one node's lvs in the move protocol

  // What the move protocol sees of a node: the copy of one volume.
  function CopyAt(lvs: Lvs, id: string): C.Copy {
    if id in lvs && lvs[id].state != Foreign
    then C.Copy(lvs[id].state, lvs[id].content, lvs[id].transfer, lvs[id].target) else C.Absent
  }

  // QueryVolume: a volume that is there and not INCOMING came with a commit.
  method QueryVolume(c: Client, id: string) returns (ok: bool, committed: bool)
    modifies c`failed
    ensures Told(old(c.failed), c.failed, ok)
    ensures ok ==> (committed <==> id in c.lvs && c.lvs[id].state != Foreign && c.lvs[id].state != Incoming)
    ensures ok ==> forall n: C.Node :: n.copy == CopyAt(c.lvs, id) ==> (C.Answers(n) <==> committed)
  {
    var volume := c.GetVolume(id);
    ok := !volume.ScanFailed?;
    committed := volume.Found? && volume.lv.state != Incoming;
  }

  // The verb behind a step of the protocol.
  function VerbOf(e: C.Event): Step
    requires e.AttachIt? || e.DetachIt? || e.Delete? || e.Push? || e.MarkCommitting? || e.Retire? || e.Revert?
  {
    match e
    case AttachIt(_) => ToAttached
    case DetachIt(_) => ToDetached
    case Delete(_) => ToDeleting
    case Push(_, transfer, target, _) => ToPushing(transfer, target)
    case MarkCommitting(_, _) => ToCommitting
    case Retire(_, _) => ToRetired
    case Revert(_, _) => ToReverted
  }

  // What the verbs leave, as their contracts state it, is what the protocol's steps make of the copy.
  lemma VerbsAreSteps(sha: Sha, s: C.Nodes, lvs: Lvs, id: string, e: C.Event)
    requires C.Enabled(s, e) && id in lvs && s[e.n].copy == CopyAt(lvs, id)
    requires e.AttachIt? || e.DetachIt? || e.Delete? || e.Push? || e.MarkCommitting? || e.Retire? || e.Revert?
    requires (e.Retire? || e.Revert? ==> e.ok) && (e.Push? || e.MarkCommitting? ==> !e.report.Fails?)
    ensures C.Next(sha, s, e)[e.n].copy == CopyAt(lvs[id := Stepped(lvs[id], VerbOf(e))], id)
  {
  }

  // A restart of the protocol's node is what recovery does to the volume, however interrupted.
  lemma RestartIsRecovery(sha: Sha, s: C.Nodes, n: string, lvs: Lvs, id: string, history: seq<Attempt>)
    requires Orderly(lvs) && Fits(lvs, history) && Recovered(lvs, history)
    requires n in s && s[n].copy == CopyAt(lvs, id) && C.Enabled(s, C.Restart(n, true))
    requires !Awaited(lvs, id) && (id in lvs ==> lvs[id].state !in {Creating, Rollback})
    ensures C.Next(sha, s, C.Restart(n, true))[n].copy == CopyAt(After(lvs, history), id)
  {
    hide Orderly, Settled, Fits, Recovered, After, Awaited, Survivors;
    OrderlyIsClean(lvs);
    OrderlyRecovers(lvs, history);
    if id in lvs && lvs[id].state !in {Incoming, Deleting} {
      Stays(lvs, id);
    } else {
      Leaves(lvs, id);
    }
  }

  lemma Stays(lvs: Lvs, id: string)
    requires Clean(lvs) && id in lvs && lvs[id].state !in {Creating, Rollback, Incoming, Deleting}
    ensures id in Settled(lvs) && Settled(lvs)[id] == SettledLv(lvs, id)
  {
    hide CopiesSettle, LineageSettles;
    assert Comes(lvs, id, id);
    SettledFrom(lvs, id, id);
  }

  lemma Leaves(lvs: Lvs, id: string)
    requires Clean(lvs) && !Awaited(lvs, id) && (id in lvs ==> FateOf(lvs, id).Goes?)
    ensures id !in Settled(lvs)
  {
    forall k ensures !Comes(lvs, k, id) {
      assert k in lvs && FateOf(lvs, k) == Moves(id) ==> Waits(lvs, k);
    }
  }
}
