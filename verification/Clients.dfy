/** One node's lvm behind the client the verbs use (lvm/lv.go), with the history of its states.

    A daemon may die between any two commands, so every state in the history is a crash point. A
    command that reports failure may have landed all the same.
  */
module Clients {
  import opened Digest
  import opened Lvm
  import opened Recover
  import opened Outcomes
  import opened Order

  datatype Lookup = Found(lv: LV) | Missing | ScanFailed

  datatype Call = List | Look(name: string) | Do(command: Command)

  class Client {
    var lvs: Lvs
    // Every state lvm has been in, the present one last.
    ghost var trace: seq<Lvs>
    // Some verb took a name that a snapshot or a copy still refers to, or deleted a volume that a
    // copy waits for.
    ghost var reused: bool
    // The calls that reported failure, the latest last.
    ghost var failed: seq<Call>

    ghost predicate Valid()
      reads this
    {
      trace != [] && trace[|trace| - 1] == lvs && KeptAlong(trace, !reused)
    }

    constructor (lvs: Lvs)
      requires Quiet(lvs) && Orderly(lvs)
      ensures Valid() && this.lvs == lvs && !reused && failed == []
    {
      this.lvs, trace, reused, failed := lvs, [lvs], false, [];
    }

    // Issues one lvm command. Both invariants must survive it, the second one unless the command
    // reuses a name.
    method Run(c: Command, ghost reuses: bool) returns (ok: bool, ghost lied: bool)
      requires Valid() && Quiet(Apply(lvs, c)) && (reused || reuses || Orderly(Apply(lvs, c)))
      modifies this
      ensures Valid() && reused == (old(reused) || reuses) && trace == old(trace) + [lvs]
      ensures lvs == if ok || lied then Apply(old(lvs), c) else old(lvs)
      ensures (ok ==> Runs(old(lvs), c)) && (lied ==> !ok)
      ensures failed == if ok then old(failed) else old(failed) + [Do(c)]
    {
      var lands: bool, reports: bool := *, *;
      ok := Runs(lvs, c) && lands && reports;
      lied := !ok && lands;
      TraceGrows(trace, !reused, if lands then Apply(lvs, c) else lvs, !reused && !reuses);
      if lands {
        lvs := Apply(lvs, c);
      }
      trace, reused := trace + [lvs], reused || reuses;
      failed := if ok then failed else failed + [Do(c)];
    }

    // The device file of a volume, which is there while the volume is active.
    method OpenDevice(n: string) returns (device: array<byte>)
      requires n in lvs && lvs[n].active
      ensures fresh(device) && device[..] == lvs[n].content
    {
      device := DeviceOf(lvs[n].content);
    }

    // A write to an active device. Only the content changes.
    method WriteDevice(n: string, content: Bytes)
      requires Valid() && n in lvs && lvs[n].active
      modifies this
      ensures Valid() && reused == old(reused) && trace == old(trace) + [lvs] && failed == old(failed)
      ensures lvs == old(lvs)[n := old(lvs)[n].(content := content)]
    {
      EditKeepsBoth(lvs, n, lvs[n].(content := content), !reused);
      TraceGrows(trace, !reused, lvs[n := lvs[n].(content := content)], !reused);
      lvs := lvs[n := lvs[n].(content := content)];
      trace := trace + [lvs];
    }

    // Reads one volume. Foreign lvs do not count.
    method GetVolume(id: string) returns (r: Lookup)
      modifies this`failed
      ensures failed == if r.ScanFailed? then old(failed) + [Look(id)] else old(failed)
      ensures r.Found? ==> Owned(lvs, id) && r.lv == lvs[id]
      ensures r.Missing? ==> !Owned(lvs, id)
    {
      var scanned: bool := *;
      if !scanned {
        failed := failed + [Look(id)];
        return ScanFailed;
      }
      r := if id in lvs && lvs[id].state != Foreign then Found(lvs[id]) else Missing;
    }

    // Whether any lv, foreign ones included, has the name.
    method VolumeExists(id: string) returns (ok: bool, present: bool)
      modifies this`failed
      ensures failed == if ok then old(failed) else old(failed) + [Look(id)]
      ensures ok ==> (present <==> id in lvs)
    {
      ok := *;
      if !ok {
        failed := failed + [Look(id)];
      }
      present := id in lvs;
    }

    // Lists every owned volume once, in no particular order.
    method ListVolumes() returns (ok: bool, volumes: seq<string>)
      modifies this`failed
      ensures failed == if ok then old(failed) else old(failed) + [List]
      ensures ok ==> IsScan(lvs, volumes)
    {
      ok, volumes := *, [];
      if !ok {
        failed := failed + [List];
        return;
      }
      var rest := lvs.Keys;
      while rest != {}
        invariant rest <= lvs.Keys && Listed(lvs, volumes) && failed == old(failed) && lvs == old(lvs)
        invariant forall n :: n in volumes ==> n !in rest
        invariant forall n :: Owned(lvs, n) ==> n in volumes || n in rest
      {
        var n :| n in rest;
        if lvs[n].state != Foreign {
          assert (volumes + [n])[..|volumes|] == volumes;
          volumes := volumes + [n];
        }
        rest := rest - {n};
      }
    }

    lemma Now()
      requires Valid()
      ensures Quiet(lvs) && (!reused ==> Orderly(lvs))
    {
    }

    // At every crash point so far, any interrupted recoveries that end with a complete one reach
    // the one state that point settles to. No volume that is not in use has a device, and no delete
    // has got ahead of its snapshots.
    lemma EveryCrashPointRecovers(i: nat, history: seq<Attempt>)
      requires Valid() && !reused && i < |trace|
      requires Fits(trace[i], history) && Recovered(trace[i], history)
      ensures After(trace[i], history) == Settled(trace[i])
      ensures Quiet(trace[i]) && DeleteSafe(trace[i])
    {
      OrderlyRecovers(trace[i], history);
      OrderlyIsClean(trace[i]);
    }

    // There every volume is where the tags it had at the crash send it.
    lemma EveryCrashPointEndsByState(i: nat, history: seq<Attempt>)
      requires Valid() && !reused && i < |trace|
      requires Fits(trace[i], history) && Recovered(trace[i], history)
      ensures EndsByState(trace[i], After(trace[i], history))
    {
      hide EndsByState, Fits, Recovered, After, Orderly, Clean;
      OrderlyIsClean(trace[i]);
      RecoveryByState(trace[i], history);
    }
  }

  method DeviceOf(content: Bytes) returns (device: array<byte>)
    ensures fresh(device) && device[..] == content
  {
    device := new byte[|content|](i requires 0 <= i < |content| => content[i]);
  }

  // Success means no call failed on the way, failure that one did.
  predicate Told(before: seq<Call>, after: seq<Call>, ok: bool) {
    before <= after && (ok <==> after == before)
  }

  // Both invariants hold at every state of a history.
  ghost predicate KeptAlong(trace: seq<Lvs>, orderly: bool) {
    forall i :: 0 <= i < |trace| ==> Quiet(trace[i]) && (orderly ==> Orderly(trace[i]))
  }

  lemma TraceGrows(trace: seq<Lvs>, orderly: bool, lvs: Lvs, still: bool)
    requires KeptAlong(trace, orderly) && Quiet(lvs) && (still ==> orderly && Orderly(lvs))
    ensures KeptAlong(trace + [lvs], still)
  {
  }

  lemma EditKeepsBoth(lvs: Lvs, n: string, lv: LV, orderly: bool)
    requires Quiet(lvs) && (orderly ==> Orderly(lvs)) && n in lvs && Still(lv)
    requires lv.lvmOrigin == lvs[n].lvmOrigin && lv.state == lvs[n].state && lv.rollbackTarget == lvs[n].rollbackTarget
    requires Lineage(lv) == Lineage(lvs[n])
    ensures Quiet(lvs[n := lv]) && (orderly ==> Orderly(lvs[n := lv]))
  {
    if orderly {
      EditKeepsOrder(lvs, n, lv);
    }
  }
}
