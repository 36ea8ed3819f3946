/** Recover as the daemon runs it at startup (internal/storage/recover.go): one scan, then volume by
    volume, command by command. Its result is a pass of module Recover, and every state it goes
    through settles where it started from.
  */
module Startup {
  import opened Lvm
  import opened Recover
  import opened Outcomes
  import opened Order
  import opened Clients
  import opened Volumes

  ghost predicate PrefixState(base: Lvs, todo: seq<Command>, state: Lvs) {
    exists k :: 0 <= k <= |todo| && state == ApplyAll(base, todo[..k])
  }

  // The calls recovery makes for one scanned volume: its commands, and AbortPush looks again.
  predicate OwnCall(scan: Lvs, n: string, call: Call)
    requires n in scan
  {
    (call.Do? && call.command in Actions(scan, n)) || (call == Look(n) && scan[n].state == Pushing)
  }

  // One of the volume's own calls reported failure.
  ghost predicate Blamed(before: seq<Call>, after: seq<Call>, scan: Lvs, n: string)
    requires n in scan
  {
    exists i :: |before| <= i < |after| && OwnCall(scan, n, after[i])
  }

  lemma BlamedStays(start: seq<Call>, before: seq<Call>, mid: seq<Call>, after: seq<Call>, scan: Lvs, n: string)
    requires n in scan && Blamed(before, mid, scan, n) && start <= before && mid <= after
    ensures Blamed(start, after, scan, n)
  {
    hide OwnCall;
    var i :| |before| <= i < |mid| && OwnCall(scan, n, mid[i]);
    assert after[i] == mid[i];
  }

  lemma BlameLast(before: seq<Call>, scan: Lvs, n: string, call: Call)
    requires n in scan && OwnCall(scan, n, call)
    ensures Blamed(before, before + [call], scan, n)
  {
    assert (before + [call])[|before|] == call;
  }

  // Issues one of a volume's commands.
  method Step(c: Client, ghost base: Lvs, ghost scan: Lvs, ghost n: string, ghost k: nat, command: Command)
      returns (ok: bool, ghost done: nat)
    requires c.Valid() && n in scan && k < |Actions(scan, n)| && Actions(scan, n)[k] == command
    requires c.lvs == ApplyAll(base, Actions(scan, n)[..k])
    requires Quiet(Apply(c.lvs, command)) && (c.reused || Orderly(Apply(c.lvs, command)))
    modifies c
    ensures c.Valid() && c.reused == old(c.reused) && c.trace == old(c.trace) + [c.lvs]
    ensures k <= done <= k + 1 && c.lvs == ApplyAll(base, Actions(scan, n)[..done])
    ensures ok ==> done == k + 1 && Runs(old(c.lvs), command) && c.failed == old(c.failed)
    ensures old(c.failed) <= c.failed && (ok || Blamed(old(c.failed), c.failed, scan, n))
  {
    hide Quiet, Orderly, KeptAlong, Actions, Blamed;
    OneMore(base, Actions(scan, n), k);
    assert OwnCall(scan, n, Do(command)) by {
      assert command in Actions(scan, n);
    }
    BlameLast(c.failed, scan, n, Do(command));
    ghost var lied;
    ok, lied := c.Run(command, false);
    done := if ok || lied then k + 1 else k;
  }

  // What the pass provides when it comes to a volume: the record is as scanned, and on an orderly
  // node so are its commands.
  ghost predicate Turn(c: Client, scan: Lvs, n: string)
    reads c
  {
    && c.Valid() && Owned(scan, n) && Unmoved(scan, c.lvs, n)
    && (c.reused || Actions(c.lvs, n) == Actions(scan, n))
    && (forall m :: m in scan && scan[m].state == Foreign ==> m in c.lvs)
  }

  twostate predicate Advanced(c: Client, scan: Lvs, n: string, done: nat)
    requires n in scan
    reads c
  {
    && c.Valid() && c.reused == old(c.reused) && old(c.trace) <= c.trace
    && done <= |Actions(scan, n)| && c.lvs == ApplyAll(old(c.lvs), Actions(scan, n)[..done])
    && (forall i :: |old(c.trace)| <= i < |c.trace| ==> PrefixState(old(c.lvs), Actions(scan, n), c.trace[i]))
    && old(c.failed) <= c.failed
    && (done < |Actions(scan, n)| ==> Blamed(old(c.failed), c.failed, scan, n))
  }

  // Creating, deleting and incoming volumes, and copies whose target exists.
  method RecoverGone(c: Client, ghost scan: Lvs, n: string) returns (ghost done: nat)
    requires Turn(c, scan, n) && FateOf(scan, n).Goes?
    modifies c
    ensures Advanced(c, scan, n, done)
  {
    hide Quiet, Orderly, KeptAlong;
    ghost var todo := Actions(scan, n);
    StartsHere(c.lvs, todo);
    c.Now();
    RemoveKeeps(c.lvs, n, !c.reused);
    var _, d := Step(c, c.lvs, scan, n, 0, Remove(n));
    done := d;
  }

  lemma StartsHere(lvs: Lvs, todo: seq<Command>)
    ensures ApplyAll(lvs, todo[..0]) == lvs
  {
    assert todo[..0] == [];
  }

  // Activation does not survive a reboot.
  method RecoverAttached(c: Client, ghost scan: Lvs, n: string) returns (ghost done: nat)
    requires Turn(c, scan, n) && scan[n].state == Attached
    modifies c
    ensures Advanced(c, scan, n, done)
  {
    hide Quiet, Orderly, KeptAlong;
    ghost var todo := Actions(scan, n);
    StartsHere(c.lvs, todo);
    c.Now();
    EditKeepsBoth(c.lvs, n, Activated(c.lvs[n], false), !c.reused);
    var _, d := Step(c, c.lvs, scan, n, 0, Activate(n, false));
    done := d;
  }

  // Snapshots from before the lineage tag get it while lvm still knows the origin. A crash while
  // something read the snapshot leaves it active.
  method RecoverSnapshot(c: Client, ghost scan: Lvs, n: string, volume: LV) returns (ghost done: nat)
    requires Turn(c, scan, n) && volume == scan[n] && volume.state == Snapshot
    modifies c
    ensures Advanced(c, scan, n, done)
  {
    hide Quiet, Orderly, KeptAlong, Actions, Blamed;
    ghost var base, todo := c.lvs, Actions(scan, n);
    done := 0;
    StartsHere(base, todo);
    SnapshotActions(scan, n);
    if volume.origin == "" && Lineage(volume) != "" {
      c.Now();
      if !c.reused {
        TagIsCurrent(scan, c.lvs, n);
      }
      TagKeeps(c.lvs, n, Lineage(volume), !c.reused);
      var ok, d := Step(c, base, scan, n, 0, Change(n, TagOrigin(Lineage(volume))));
      done := d;
      if !ok {
        return;
      }
    }
    if volume.active {
      var _, d := SwitchOffScanned(c, base, scan, n, done);
      done := d;
    }
  }

  lemma TagIsCurrent(scan: Lvs, now: Lvs, n: string)
    requires Unmoved(scan, now, n) && Actions(now, n) == Actions(scan, n)
    requires scan[n].state == Snapshot && scan[n].origin == "" && scan[n].lvmOrigin != ""
    ensures now[n].lvmOrigin == scan[n].lvmOrigin
  {
    assert Actions(scan, n)[0] == Change(n, TagOrigin(scan[n].lvmOrigin));
  }

  lemma SnapshotActions(lvs: Lvs, n: string)
    requires n in lvs && lvs[n].state == Snapshot
    ensures var tag, off := Change(n, TagOrigin(lvs[n].lvmOrigin)), Deactivate(n);
            Actions(lvs, n)
            == (if lvs[n].origin == "" && lvs[n].lvmOrigin != "" then [tag] else [])
               + if lvs[n].active then [off] else []
  {
  }

  // Deactivates a volume as one of its commands.
  method SwitchOffScanned(c: Client, ghost base: Lvs, ghost scan: Lvs, n: string, ghost k: nat)
      returns (ok: bool, ghost done: nat)
    requires c.Valid() && n in scan && n in c.lvs && k < |Actions(scan, n)| && Actions(scan, n)[k] == Deactivate(n)
    requires c.lvs == ApplyAll(base, Actions(scan, n)[..k])
    modifies c
    ensures c.Valid() && c.reused == old(c.reused) && c.trace == old(c.trace) + [c.lvs]
    ensures k <= done <= k + 1 && c.lvs == ApplyAll(base, Actions(scan, n)[..done])
    ensures old(c.failed) <= c.failed && (ok || Blamed(old(c.failed), c.failed, scan, n))
    ensures ok ==> c.failed == old(c.failed) && done == k + 1
    ensures ok ==> c.lvs == old(c.lvs)[n := old(c.lvs)[n].(active := false)]
  {
    hide Quiet, Orderly, KeptAlong, Actions, Blamed;
    c.Now();
    EditKeepsBoth(c.lvs, n, c.lvs[n].(active := false), !c.reused);
    OneMore(base, Actions(scan, n), k);
    ok, done := Step(c, base, scan, n, k, Deactivate(n));
  }

  lemma TagKeeps(lvs: Lvs, n: string, origin: string, orderly: bool)
    requires n in lvs && lvs[n].state == Snapshot && lvs[n].origin == ""
    requires Quiet(lvs) && (orderly ==> Orderly(lvs) && origin == lvs[n].lvmOrigin)
    ensures Quiet(lvs[n := lvs[n].(origin := origin)]) && (orderly ==> Orderly(lvs[n := lvs[n].(origin := origin)]))
  {
    if orderly {
      EditKeepsOrder(lvs, n, lvs[n].(origin := origin));
    }
  }

  // The commit was never sent: AbortPush.
  method RecoverPushing(c: Client, ghost scan: Lvs, n: string) returns (ghost done: nat)
    requires Turn(c, scan, n) && scan[n].state == Pushing
    modifies c
    ensures Advanced(c, scan, n, done)
  {
    hide Quiet, Orderly, KeptAlong, Actions, Blamed;
    ghost var base, todo, told := c.lvs, Actions(scan, n), c.failed;
    done := 0;
    StartsHere(base, todo);
    PushingActions(scan, n);
    var volume := c.GetVolume(n);
    if !volume.Found? {
      BlameLast(told, scan, n, Look(n));
      return;
    }
    if volume.lv.active {
      var ok, d := SwitchOffScanned(c, base, scan, n, 0);
      done := d;
      if !ok {
        return;
      }
    }
    done := RevertScanned(c, base, scan, n, done);
  }

  // Retags a pushing volume as the last of its commands.
  method RevertScanned(c: Client, ghost base: Lvs, ghost scan: Lvs, n: string, ghost k: nat) returns (ghost done: nat)
    requires c.Valid() && n in scan && k < |Actions(scan, n)| && Actions(scan, n)[k] == Change(n, EndPush(Ready))
    requires c.lvs == ApplyAll(base, Actions(scan, n)[..k]) && n in c.lvs && !c.lvs[n].active
    modifies c
    ensures c.Valid() && c.reused == old(c.reused) && c.trace == old(c.trace) + [c.lvs]
    ensures k <= done <= k + 1 && c.lvs == ApplyAll(base, Actions(scan, n)[..done])
    ensures old(c.failed) <= c.failed && (done <= k ==> Blamed(old(c.failed), c.failed, scan, n))
  {
    hide Quiet, Orderly, KeptAlong, Actions, Blamed;
    c.Now();
    VolumeEditKeeps(c.lvs, n, Edited(c.lvs[n], EndPush(Ready)), !c.reused);
    var _, d := Step(c, base, scan, n, k, Change(n, EndPush(Ready)));
    done := d;
  }

  lemma PushingActions(lvs: Lvs, n: string)
    requires n in lvs && lvs[n].state == Pushing
    ensures Actions(lvs, n) == (if lvs[n].active then [Deactivate(n)] else []) + [Change(n, EndPush(Ready))]
  {
  }

  // A copy under its target's name only needs the retag, one whose target exists aborts, another
  // one finishes. Whether the target exists is looked up in the scan.
  method RecoverRollback(c: Client, ghost scan: Lvs, n: string, volume: LV, byName: set<string>)
      returns (ghost done: nat)
    requires Turn(c, scan, n) && volume == scan[n] && volume.state == Rollback
    requires forall m :: m in byName <==> Owned(scan, m)
    modifies c
    ensures Advanced(c, scan, n, done)
  {
    hide Quiet, Orderly, KeptAlong;
    var target := volume.rollbackTarget;
    if target != "" && target != n && target in byName {
      done := RecoverGone(c, scan, n);
    } else if target != "" {
      done := FinishRollback(c, scan, n, target);
    } else {
      done := 0;
      StartsHere(c.lvs, Actions(scan, n));
    }
  }

  // Rename, unless the copy is there already, and retag.
  method FinishRollback(c: Client, ghost scan: Lvs, n: string, target: string) returns (ghost done: nat)
    requires Turn(c, scan, n) && scan[n].state == Rollback && scan[n].rollbackTarget == target != ""
    requires target == n || !Owned(scan, target)
    modifies c
    ensures Advanced(c, scan, n, done)
  {
    hide Quiet, Orderly, KeptAlong;
    ghost var base, todo := c.lvs, Actions(scan, n);
    done := 0;
    StartsHere(base, todo);
    c.Now();
    StillAt(base, n);
    if target != n {
      var ok;
      ok, done := RenameCopy(c, scan, n, target);
      if !ok {
        return;
      }
    }
    done := RetagCopy(c, scan, n, target, base, done);
  }

  // lvm refuses while an lv, owned or not, has the name.
  method RenameCopy(c: Client, ghost scan: Lvs, n: string, target: string) returns (ok: bool, ghost done: nat)
    requires Turn(c, scan, n) && scan[n].state == Rollback && scan[n].rollbackTarget == target && target !in {"", n}
    requires !Owned(scan, target)
    modifies c
    ensures c.Valid() && c.reused == old(c.reused) && c.trace == old(c.trace) + [c.lvs]
    ensures done <= |Actions(scan, n)| && c.lvs == ApplyAll(old(c.lvs), Actions(scan, n)[..done])
    ensures old(c.failed) <= c.failed && (ok ==> c.failed == old(c.failed))
    ensures !ok && done < |Actions(scan, n)| ==> Blamed(old(c.failed), c.failed, scan, n)
    ensures ok ==> FateOf(scan, n) == Moves(target) && done == 1
                   && target in c.lvs && c.lvs[target] == Relinked(old(c.lvs)[n], n, target)
  {
    hide Quiet, Orderly, KeptAlong;
    ghost var base, todo := c.lvs, Actions(scan, n);
    StartsHere(base, todo);
    c.Now();
    if target !in base {
      RenameKeeps(base, n, !c.reused);
      OneMore(base, todo, 0);
    }
    ghost var lied;
    ok, lied := c.Run(Rename(n, target), false);
    if todo != [] {
      assert todo[0] == Rename(n, target);
      BlameLast(old(c.failed), scan, n, Do(Rename(n, target)));
    }
    done := if target !in base && (ok || lied) then 1 else 0;
  }

  method RetagCopy(c: Client, ghost scan: Lvs, n: string, target: string, ghost base: Lvs, ghost k: nat)
      returns (ghost done: nat)
    requires c.Valid() && n in scan && k < |Actions(scan, n)| && Actions(scan, n)[k] == Change(target, EndRollback)
    requires c.lvs == ApplyAll(base, Actions(scan, n)[..k])
    requires target in c.lvs && !c.lvs[target].active
    modifies c
    ensures c.Valid() && c.reused == old(c.reused) && c.trace == old(c.trace) + [c.lvs]
    ensures done <= |Actions(scan, n)| && c.lvs == ApplyAll(base, Actions(scan, n)[..done])
    ensures old(c.failed) <= c.failed && (done < |Actions(scan, n)| ==> Blamed(old(c.failed), c.failed, scan, n))
  {
    hide Quiet, Orderly, KeptAlong;
    c.Now();
    VolumeEditKeeps(c.lvs, target, Edited(c.lvs[target], EndRollback), !c.reused);
    var _, d := Step(c, base, scan, n, k, Change(target, EndRollback));
    done := d;
  }

  method RecoverVolume(c: Client, ghost scan: Lvs, n: string, volume: LV, byName: set<string>) returns (ghost done: nat)
    requires Turn(c, scan, n) && volume == scan[n]
    requires forall m :: m in byName <==> Owned(scan, m)
    modifies c
    ensures Advanced(c, scan, n, done)
  {
    hide Actions, FateOf, Quiet, Orderly, KeptAlong;
    Fates(scan, n);
    if volume.state in {Creating, Deleting, Incoming} {
      done := RecoverGone(c, scan, n);
    } else if volume.state == Attached {
      done := RecoverAttached(c, scan, n);
    } else if volume.state == Snapshot {
      done := RecoverSnapshot(c, scan, n, volume);
    } else if volume.state == Pushing {
      done := RecoverPushing(c, scan, n);
    } else if volume.state == Rollback {
      done := RecoverRollback(c, scan, n, volume, byName);
    } else {
      done := 0;
      StartsHere(c.lvs, Actions(scan, n));
    }
  }

  lemma Fates(scan: Lvs, n: string)
    requires n in scan
    ensures scan[n].state in {Creating, Deleting, Incoming} ==> FateOf(scan, n).Goes?
    ensures scan[n].state in {Ready, Retired, Committing, Unknown, Foreign} ==> Actions(scan, n) == []
  {
  }

  // --------------------------------------------------------------------------- the whole scan

  // Where the pass stands after the first volumes of the scan.
  ghost predicate Midway(scan: Lvs, now: Lvs, order: seq<string>, cuts: seq<nat>, orderly: bool) {
    && Listed(scan, order) && |cuts| == |order| && now == Pass(scan, order, cuts)
    && (orderly ==> PassKeeps(scan, now, order))
    && forall m :: m in scan && m !in order ==> Unmoved(scan, now, m)
  }

  lemma MidwayStarts(scan: Lvs, orderly: bool)
    requires orderly ==> Orderly(scan)
    ensures Midway(scan, scan, [], [], orderly)
  {
    if orderly {
      OrderlyIsClean(scan);
    }
  }

  lemma MidwayAdvances(scan: Lvs, now: Lvs, order: seq<string>, cuts: seq<nat>, orderly: bool, n: string, done: nat)
    requires Midway(scan, now, order, cuts, orderly) && Owned(scan, n) && n !in order
    requires done <= |Actions(scan, n)|
    ensures Midway(scan, ApplyAll(now, Actions(scan, n)[..done]), order + [n], cuts + [done], orderly)
  {
    hide PassKeeps, Actions;
    var after := ApplyAll(now, Actions(scan, n)[..done]);
    assert (order + [n])[..|order|] == order && (cuts + [done])[..|cuts|] == cuts;
    if orderly {
      PassStep(scan, now, order, n, done);
    }
    forall m | m in scan && m !in order + [n] ensures Unmoved(scan, after, m) {
      ActionsLocal(scan, now, n, done, m);
    }
  }

  // No command takes the node off its course.
  lemma PrefixSettles(scan: Lvs, now: Lvs, order: seq<string>, n: string, state: Lvs)
    requires PassKeeps(scan, now, order) && Owned(scan, n) && n !in order
    requires PrefixState(now, Actions(scan, n), state)
    ensures Settled(state) == Settled(scan)
  {
    hide Settled, Actions, Clean;
    var k: nat :| k <= |Actions(scan, n)| && state == ApplyAll(now, Actions(scan, n)[..k]);
    PassStep(scan, now, order, n, k);
  }

  lemma TurnComes(c: Client, scan: Lvs, order: seq<string>, cuts: seq<nat>, n: string)
    requires c.Valid() && Midway(scan, c.lvs, order, cuts, !c.reused) && Owned(scan, n) && n !in order
    ensures Turn(c, scan, n)
  {
    hide Actions, Pass, Settled, Clean;
    forall m | m in scan && scan[m].state == Foreign ensures m in c.lvs {
      if j :| 0 <= j < |order| && order[j] == m {
        ListedOnce(scan, order, j);
      }
      assert Unmoved(scan, c.lvs, m);
    }
  }

  // A volume whose commands did not all land is one of whose own commands failed.
  ghost predicate AllBlamed(scan: Lvs, order: seq<string>, cuts: seq<nat>, before: seq<Call>, after: seq<Call>)
    requires |cuts| == |order| && Listed(scan, order)
  {
    order == [] ||
    var last := |order| - 1;
    && (cuts[last] >= |Actions(scan, order[last])| || Blamed(before, after, scan, order[last]))
    && AllBlamed(scan, order[..last], cuts[..last], before, after)
  }

  lemma {:induction false} AllBlamedStays(scan: Lvs, order: seq<string>, cuts: seq<nat>, before: seq<Call>,
                                          mid: seq<Call>, after: seq<Call>)
    requires |cuts| == |order| && Listed(scan, order) && AllBlamed(scan, order, cuts, before, mid) && mid <= after
    ensures AllBlamed(scan, order, cuts, before, after)
  {
    if order != [] {
      var last := |order| - 1;
      AllBlamedStays(scan, order[..last], cuts[..last], before, mid, after);
      if Blamed(before, mid, scan, order[last]) {
        BlamedStays(before, before, mid, after, scan, order[last]);
      }
    }
  }

  lemma AllBlamedGrows(scan: Lvs, order: seq<string>, cuts: seq<nat>, n: string, done: nat, before: seq<Call>,
                       mid: seq<Call>, after: seq<Call>)
    requires |cuts| == |order| && Listed(scan, order) && AllBlamed(scan, order, cuts, before, mid)
    requires before <= mid <= after
    requires Owned(scan, n) && n !in order && (done < |Actions(scan, n)| ==> Blamed(mid, after, scan, n))
    ensures Listed(scan, order + [n]) && AllBlamed(scan, order + [n], cuts + [done], before, after)
  {
    hide Blamed, Actions;
    AllBlamedStays(scan, order, cuts, before, mid, after);
    assert (order + [n])[..|order|] == order && (cuts + [done])[..|cuts|] == cuts;
    if done < |Actions(scan, n)| {
      BlamedStays(before, mid, after, after, scan, n);
    }
  }

  // Without a failure the pass is complete.
  lemma {:induction false} NobodyBlamed(scan: Lvs, order: seq<string>, cuts: seq<nat>, before: seq<Call>)
    requires |cuts| == |order| && Listed(scan, order) && AllBlamed(scan, order, cuts, before, before)
    ensures Complete(scan, order, cuts)
  {
    if order != [] {
      var last := |order| - 1;
      NobodyBlamed(scan, order[..last], cuts[..last], before);
    }
  }

  method RecoverNode(c: Client) returns (ok: bool, order: seq<string>, ghost cuts: seq<nat>)
    requires c.Valid()
    modifies c
    ensures c.Valid() && c.reused == old(c.reused) && old(c.trace) <= c.trace
    ensures !ok ==> c.lvs == old(c.lvs)
    ensures ok ==> IsScan(old(c.lvs), order) && |cuts| == |order| && c.lvs == Pass(old(c.lvs), order, cuts)
    ensures !c.reused ==> forall i :: |old(c.trace)| <= i < |c.trace| ==> Settled(c.trace[i]) == Settled(old(c.lvs))
    ensures ok && !c.reused && Complete(old(c.lvs), order, cuts) ==> c.lvs == Settled(old(c.lvs))
    ensures old(c.failed) <= c.failed && (!ok ==> old(c.failed) < c.failed)
    ensures ok ==> Listed(old(c.lvs), order) && AllBlamed(old(c.lvs), order, cuts, old(c.failed), c.failed)
    ensures c.failed == old(c.failed) && !c.reused ==> c.lvs == Settled(old(c.lvs))
    ensures c.failed == old(c.failed) && !c.reused ==> EndsByState(old(c.lvs), c.lvs)
    ensures DataKept(old(c.lvs), c.lvs, c.failed == old(c.failed))
  {
    hide EndsByState, DataKept, Quiet, Orderly, KeptAlong, Pass, Settled, Listed, Actions, Clean, PassKeeps, Unmoved,
      Complete, IsScan, Midway, Blamed;
    cuts := [];
    NothingLost(c.lvs);
    ok, order := c.ListVolumes();
    if !ok {
      return;
    }
    var scan := c.lvs;
    c.Now();
    MidwayStarts(scan, !c.reused);
    MidwayLists(scan, scan, [], [], !c.reused);
    ScanNames(scan, order);
    var byName := set n | n in order;
    var i := 0;
    while i < |order|
      invariant 0 <= i <= |order| && c.Valid() && c.reused == old(c.reused) && old(c.trace) <= c.trace
      invariant Midway(scan, c.lvs, order[..i], cuts, !c.reused) && old(c.failed) <= c.failed
      invariant |cuts| == i && Listed(scan, order[..i]) && AllBlamed(scan, order[..i], cuts, old(c.failed), c.failed)
      invariant !c.reused ==> forall j :: |old(c.trace)| <= j < |c.trace| ==> Settled(c.trace[j]) == Settled(scan)
    {
      ghost var done := RecoverNext(c, scan, order, i, cuts, byName, old(c.failed));
      assert order[..i] + [order[i]] == order[..i + 1];
      cuts := cuts + [done];
      i := i + 1;
    }
    assert order[..i] == order;
    WholeScan(scan, c.lvs, order, cuts, !c.reused);
    if c.failed == old(c.failed) {
      NobodyBlamed(scan, order, cuts, c.failed);
    }
    WholeScanByState(scan, c.lvs, order, cuts, !c.reused, c.failed == old(c.failed));
  }

  // The same on the fields of the records.
  lemma WholeScanByState(scan: Lvs, now: Lvs, order: seq<string>, cuts: seq<nat>, orderly: bool, calm: bool)
    requires IsScan(scan, order) && |cuts| == |order| && now == Pass(scan, order, cuts) && (orderly ==> Orderly(scan))
    requires calm ==> Complete(scan, order, cuts)
    ensures orderly && calm ==> EndsByState(scan, now)
    ensures DataKept(scan, now, calm)
  {
    hide Settled, Orderly, Pass, EndsByState, CopiesSettle, LineageSettles;
    if orderly && calm {
      OrderlyIsClean(scan);
      CompletePassSettles(scan, order, cuts);
      SettledByState(scan);
    }
    forall n | HasData(scan, n) ensures n in now && DataStays(scan[n], now[n], calm) {
      PassKeepsData(scan, order, cuts, n);
    }
  }

  lemma MidwayLists(scan: Lvs, now: Lvs, order: seq<string>, cuts: seq<nat>, orderly: bool)
    requires Midway(scan, now, order, cuts, orderly)
    ensures Listed(scan, order) && |cuts| == |order|
  {
  }

  lemma ScanNames(scan: Lvs, order: seq<string>)
    requires IsScan(scan, order)
    ensures Listed(scan, order) && forall m :: m in order <==> Owned(scan, m)
  {
    forall m | m in order ensures Owned(scan, m) {
      var j :| 0 <= j < |order| && order[j] == m;
      ListedOnce(scan, order, j);
    }
  }

  lemma WholeScan(scan: Lvs, now: Lvs, order: seq<string>, cuts: seq<nat>, orderly: bool)
    requires IsScan(scan, order) && Midway(scan, now, order, cuts, orderly) && (orderly ==> Orderly(scan))
    ensures |cuts| == |order| && now == Pass(scan, order, cuts)
    ensures orderly && Complete(scan, order, cuts) ==> now == Settled(scan)
  {
    hide Settled, Orderly, Pass, Clean, PassKeeps;
    if orderly && Complete(scan, order, cuts) {
      OrderlyIsClean(scan);
      CompletePassSettles(scan, order, cuts);
    }
  }

  // One turn of the loop.
  method RecoverNext(c: Client, scan: Lvs, order: seq<string>, i: nat, ghost cuts: seq<nat>, byName: set<string>,
                     ghost before: seq<Call>)
      returns (ghost done: nat)
    requires c.Valid() && Listed(scan, order) && i < |order| && forall m :: m in byName <==> Owned(scan, m)
    requires Midway(scan, c.lvs, order[..i], cuts, !c.reused)
    requires |cuts| == i && Listed(scan, order[..i]) && before <= c.failed
    requires AllBlamed(scan, order[..i], cuts, before, c.failed)
    modifies c
    ensures c.Valid() && c.reused == old(c.reused) && old(c.trace) <= c.trace
    ensures Midway(scan, c.lvs, order[..i] + [order[i]], cuts + [done], !c.reused)
    ensures before <= c.failed && Listed(scan, order[..i] + [order[i]])
    ensures AllBlamed(scan, order[..i] + [order[i]], cuts + [done], before, c.failed)
    ensures !c.reused ==> forall j :: |old(c.trace)| <= j < |c.trace| ==> Settled(c.trace[j]) == Settled(scan)
  {
    hide Quiet, Orderly, KeptAlong, Pass, Settled, Listed, Actions, Clean, Unmoved, PassKeeps, Turn, PrefixState;
    var n := order[i];
    ghost var now := c.lvs;
    ListedOnce(scan, order, i);
    TurnComes(c, scan, order[..i], cuts, n);
    done := RecoverVolume(c, scan, n, scan[n], byName);
    AllBlamedGrows(scan, order[..i], cuts, n, done, before, old(c.failed), c.failed);
    MidwayAdvances(scan, now, order[..i], cuts, !c.reused, n, done);
    if !c.reused {
      forall j | |old(c.trace)| <= j < |c.trace| ensures Settled(c.trace[j]) == Settled(scan) {
        PrefixSettles(scan, now, order[..i], n, c.trace[j]);
      }
    }
  }
}
