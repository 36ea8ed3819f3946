/** The table of inbound transfers (internal/storage/transfers.go) over the node's lvs.

    One step of the table runs under its lock or, for Write and Commit, while nothing else touches
    the session. Timers are calls of Expire at any time. The table records the ids it went through.
  */
module TransferTable {
  import opened Digest
  import opened Sessions
  import opened Lvm
  import opened Clients
  import opened Order
  import opened Volumes
  import opened Pushes
  import C = Cluster

  datatype Answer =
    | Ok | TransferUsed | TransferLimit | TransferUnknown | TransferBusy | Framed(error: WriteError)
    | DigestMismatch | Failed

  // What a run of the table may do to its ids.
  datatype Ids = Ids(live: set<string>, dead: set<string>, committed: set<string>)

  predicate Disjoint(ids: Ids) {
    ids.live !! ids.dead && ids.committed <= ids.dead
  }

  // Ids die once and for all, and what died without a commit never commits.
  predicate Later(a: Ids, b: Ids) {
    && a.live <= b.live + b.dead
    && a.dead <= b.dead && a.committed <= b.committed
    && b.committed * a.dead <= a.committed
  }

  predicate RunOf(run: seq<Ids>) {
    run != [] && (forall i :: 0 <= i < |run| ==> Disjoint(run[i]))
    && forall i :: 0 < i < |run| ==> Later(run[i - 1], run[i])
  }

  lemma {:induction false} LaterAlong(run: seq<Ids>, i: nat, j: nat)
    requires RunOf(run) && i <= j < |run|
    ensures Later(run[i], run[j])
    decreases j
  {
    if i < j {
      LaterAlong(run, i, j - 1);
    }
  }

  // The end of a session.
  lemma LaterEnded(a: Ids, t: string)
    requires Disjoint(a) && t in a.live
    ensures Later(a, Ids(a.live - {t}, a.dead + {t}, a.committed))
    ensures Later(a, Ids(a.live - {t}, a.dead + {t}, a.committed + {t}))
  {
  }

  lemma RunGrows(run: seq<Ids>, ids: Ids)
    requires RunOf(run) && Disjoint(ids) && Later(run[|run| - 1], ids)
    ensures RunOf(run + [ids])
  {
  }

  // A live session's volume is INCOMING and active, tagged with its transfer, and its hash stream is
  // sound for the device.
  predicate Linked(sha: Sha, lvs: Lvs, t: string, ses: Session) {
    && ses.volume in lvs && lvs[ses.volume].state == Incoming && lvs[ses.volume].transfer == t
    && lvs[ses.volume].active
    && Sound(sha, Receiver(ses, lvs[ses.volume].content))
  }

  predicate AllLinked(sha: Sha, lvs: Lvs, sessions: map<string, Session>) {
    forall t :: t in sessions ==> Linked(sha, lvs, t, sessions[t])
  }

  lemma LinkAt(sha: Sha, lvs: Lvs, sessions: map<string, Session>, t: string)
    requires AllLinked(sha, lvs, sessions) && t in sessions
    ensures Linked(sha, lvs, t, sessions[t])
  {
  }

  lemma LinkReplaced(sha: Sha, lvs: Lvs, sessions: map<string, Session>, t: string, ses: Session)
    requires AllLinked(sha, lvs, sessions) && Linked(sha, lvs, t, ses)
    ensures AllLinked(sha, lvs, sessions[t := ses])
  {
  }

  lemma LinkDropped(sha: Sha, lvs: Lvs, sessions: map<string, Session>, t: string)
    requires AllLinked(sha, lvs, sessions)
    ensures AllLinked(sha, lvs, sessions - {t})
  {
  }

  // Only one volume changes, and no session but t's is on it.
  lemma LinksElsewhere(sha: Sha, lvs: Lvs, after: Lvs, sessions: map<string, Session>, t: string, volume: string)
    requires AllLinked(sha, lvs, sessions) && t !in sessions
    requires volume in lvs ==> lvs[volume].state != Incoming || lvs[volume].transfer == t
    requires after == Removed(lvs, volume) || (volume in after && after == lvs[volume := after[volume]]) || after == lvs
    ensures AllLinked(sha, after, sessions)
  {
    hide Sound;
    forall u | u in sessions ensures Linked(sha, after, u, sessions[u]) {
      LinkAt(sha, lvs, sessions, u);
    }
  }

  // A volume that outlives its session does so because lvm refused its removal.
  ghost predicate GoneOrRefused(c: Client, volume: string, before: seq<Call>)
    reads c
  {
    && before <= c.failed
    && (volume in c.lvs ==> |c.failed| > |before| && c.failed[|c.failed| - 1] == Do(Remove(volume)))
  }

  // A volume that is gone, or as it was up to its device and a forgotten lvm origin.
  predicate GoneOrKept(lvs: Lvs, after: Lvs, v: string)
    requires v in lvs
  {
    v in after ==> after[v] == lvs[v].(active := after[v].active, lvmOrigin := after[v].lvmOrigin)
  }

  // A new session: nothing received, no stream, and an active INCOMING volume of zeros behind it.
  predicate Prepared(lvs: Lvs, after: Lvs, t: string, ses: Session, volume: string, size: nat) {
    && volume !in lvs && volume in after && after == lvs[volume := after[volume]]
    && Blank(after[volume], Incoming, size, t) && after[volume].active
    && ses.volume == volume && ses.size == size && ses.next == 0 && ses.log == Empty && !ses.streaming && !ses.open
  }

  lemma OneMoreSession(sessions: map<string, Session>, t: string, ses: Session)
    requires t !in sessions
    ensures var more := sessions[t := ses];
            more.Keys == sessions.Keys + {t} && |more| == |sessions| + 1 && more - {t} == sessions
  {
    var more := sessions[t := ses];
    assert more.Keys == sessions.Keys + {t} && |more.Keys| == |sessions.Keys| + 1;
  }

  class Transfers {
    const sha: Sha
    const client: Client
    const max: nat
    var sessions: map<string, Session>
    var dead: set<string>
    var committed: set<string>
    // The ids at every change of the table, the present ones last.
    ghost var history: seq<Ids>

    function IdsNow(): Ids
      reads this
    {
      Ids(sessions.Keys, dead, committed)
    }

    ghost predicate Valid()
      reads this, client
    {
      && client.Valid() && Disjoint(IdsNow()) && |sessions| <= max && AllLinked(sha, client.lvs, sessions)
      && RunOf(history) && history[|history| - 1] == IdsNow()
    }

    constructor (sha: Sha, client: Client, max: nat)
      requires client.Valid()
      ensures Valid() && IdsNow() == Ids({}, {}, {})
      ensures this.sha == sha && this.client == client && this.max == max
    {
      this.sha, this.client, this.max := sha, client, max;
      sessions, dead, committed, history := map[], {}, {}, [Ids({}, {}, {})];
    }

    // Over the life of a table an id that was ever in use is never free again, one that ended
    // without a commit is never committed, and a committed one stays committed.
    lemma IdsAreSingleUse(i: nat, j: nat, t: string)
      requires Valid() && i <= j < |history|
      ensures t in history[i].live + history[i].dead ==> t in history[j].live + history[j].dead
      ensures t in history[i].dead ==>
                t !in history[j].live && (t in history[j].committed <==> t in history[i].committed)
      ensures t in history[i].committed ==> t in history[j].committed
      ensures history[j].committed <= history[j].dead && history[j].live !! history[j].dead
    {
      hide AllLinked, KeptAlong;
      LaterAlong(history, i, j);
    }

    method NextOffset(t: string) returns (r: Answer, offset: uint64)
      requires Valid()
      ensures r == if t in sessions then Ok else TransferUnknown
      ensures r.Ok? ==> offset == sessions[t].next && (offset % CHUNK == 0 || offset == sessions[t].size)
    {
      hide RunOf, AllLinked, KeptAlong;
      if t !in sessions {
        return TransferUnknown, 0;
      }
      LinkAt(sha, client.lvs, sessions, t);
      r, offset := Ok, sessions[t].next;
    }

    method SetStreaming(t: string, streaming: bool)
      requires Valid() && t in sessions
      modifies this
      ensures Valid() && IdsNow() == old(IdsNow())
      ensures history == old(history)
      ensures sessions == old(sessions)[t := old(sessions[t]).(streaming := streaming)]
    {
      hide RunOf, AllLinked, KeptAlong;
      LinkAt(sha, client.lvs, sessions, t);
      LinkReplaced(sha, client.lvs, sessions, t, sessions[t].(streaming := streaming));
      sessions := sessions[t := sessions[t].(streaming := streaming)];
      assert sessions.Keys == old(sessions.Keys);
      assert |sessions| == |sessions.Keys|;
    }

    // Claims the stream slot.
    method Attach(t: string) returns (r: Answer)
      requires Valid()
      modifies this
      ensures Valid() && IdsNow() == old(IdsNow())
      ensures history == old(history)
      ensures r == if t !in old(sessions) then TransferUnknown
                   else if old(sessions[t].streaming) then TransferBusy else Ok
      ensures sessions == if r.Ok? then old(sessions)[t := old(sessions[t]).(streaming := true)] else old(sessions)
    {
      hide RunOf, AllLinked, KeptAlong, Sound;
      if t !in sessions {
        return TransferUnknown;
      }
      if sessions[t].streaming {
        return TransferBusy;
      }
      SetStreaming(t, true);
      r := Ok;
    }

    method Detach(t: string)
      requires Valid()
      modifies this
      ensures Valid() && IdsNow() == old(IdsNow())
      ensures history == old(history)
      ensures sessions == if t in old(sessions) then old(sessions)[t := old(sessions[t]).(streaming := false)]
                else old(sessions)
    {
      hide RunOf, AllLinked, KeptAlong, Sound;
      if t in sessions {
        SetStreaming(t, false);
      }
    }

    // ------------------------------------------------------------------------------ the start

    // Reserves the id before the lvm calls: a create that fails consumes it.
    method PrepareReceive(t: string, volume: string, size: DeviceSize) returns (r: Answer)
      requires Valid() && volume != ""
      modifies this, client
      ensures Valid() && Later(old(IdsNow()), IdsNow())
      ensures old(client.trace) <= client.trace && old(history) <= history
      ensures client.reused ==> old(client.reused) || Claimed(old(client.lvs), volume)
      ensures r.TransferUsed? <==> t in old(dead) + old(sessions.Keys)
      ensures r.TransferLimit? <==> t !in old(dead) + old(sessions.Keys) && |old(sessions)| >= max
      ensures r.TransferUsed? || r.TransferLimit? ==> IdsNow() == old(IdsNow()) && client.lvs == old(client.lvs)
      ensures r.Ok? ==>
                && t in sessions && sessions == old(sessions)[t := sessions[t]] && dead == old(dead)
                && Prepared(old(client.lvs), client.lvs, t, sessions[t], volume, size)
      ensures r.Failed? ==> sessions == old(sessions) && dead == old(dead) + {t}
      ensures Told(old(client.failed), client.failed, !r.Failed?)
      ensures committed == old(committed) && (r.Ok? || r.TransferUsed? || r.TransferLimit? || r.Failed?)
    {
      hide RunOf, AllLinked, KeptAlong, Claimed, Linked, ValidBut, Prepared;
      if t in dead || t in sessions {
        return TransferUsed;
      }
      if |sessions| >= max {
        return TransferLimit;
      }
      Reserve(t, NewSession(volume, size));
      r := CreateReserved(t, volume, size);
    }

    // Under the lock.
    method Reserve(t: string, session: Session)
      requires Valid() && t !in sessions && t !in dead && |sessions| < max
      modifies this
      ensures ValidBut(t) && sessions == old(sessions)[t := session] && sessions - {t} == old(sessions)
      ensures dead == old(dead) && committed == old(committed) && committed <= dead && old(history) <= history
    {
      hide RunOf, AllLinked, KeptAlong;
      ghost var before := sessions;
      sessions := sessions[t := session];
      OneMoreSession(before, t, session);
      assert committed - {t} == committed;
      RunGrows(history, IdsNow());
      history := history + [IdsNow()];
    }

    // The lvm half: the session is only the reservation of its id until the volume exists.
    method CreateReserved(t: string, volume: string, size: DeviceSize) returns (r: Answer)
      requires ValidBut(t) && t in sessions && sessions[t] == NewSession(volume, size) && volume != ""
      requires committed <= dead
      modifies this, client
      ensures Valid() && committed == old(committed) && (r.Ok? || r.Failed?)
      ensures old(client.trace) <= client.trace && old(history) <= history
      ensures client.reused ==> old(client.reused) || Claimed(old(client.lvs), volume)
      ensures r.Ok? ==>
                && sessions == old(sessions) && dead == old(dead)
                && Prepared(old(client.lvs), client.lvs, t, sessions[t], volume, size)
      ensures r.Failed? ==> sessions == old(sessions) - {t} && dead == old(dead) + {t}
      ensures Told(old(client.failed), client.failed, !r.Failed?)
    {
      hide RunOf, AllLinked, KeptAlong, Sound, Claimed;
      var created := CreateIncoming(client, volume, t, size);
      if client.lvs != old(client.lvs) {
        LinksElsewhere(sha, old(client.lvs), client.lvs, sessions - {t}, t, volume);
      }
      if !created.Done? {
        Finish(t);
        return Failed;
      }
      var found := client.GetVolume(volume);
      if !found.Found? {
        EndSession(t);
        return Failed;
      }
      NewLinked(sha, client.lvs, t, volume, size);
      LinkReplaced(sha, client.lvs, sessions - {t}, t, sessions[t]);
      assert (sessions - {t})[t := sessions[t]] == sessions;
      r := Ok;
    }

    // ------------------------------------------------------------------------------- the end

    // Everything but the link of t, whose session is about to end.
    ghost predicate ValidBut(t: string)
      reads this, client
    {
      && client.Valid() && |sessions| <= max && AllLinked(sha, client.lvs, sessions - {t})
      && sessions.Keys !! dead && committed <= dead + {t}
      && RunOf(history) && history[|history| - 1] == Ids(sessions.Keys, dead, committed - {t})
    }

    lemma ValidEnough(t: string)
      requires Valid() && t in sessions
      ensures ValidBut(t)
    {
      hide RunOf, AllLinked, KeptAlong;
      assert committed - {t} == committed;
      LinkDropped(sha, client.lvs, sessions, t);
    }

    lemma LaterNow()
      requires Disjoint(IdsNow())
      ensures Later(IdsNow(), IdsNow())
    {
    }

    // Ends a session without touching its volume.
    method Finish(t: string)
      requires ValidBut(t) && t in sessions
      modifies this
      ensures Valid() && sessions == old(sessions) - {t} && committed == old(committed) && dead == old(dead) + {t}
      ensures old(history) <= history
    {
      hide RunOf, AllLinked, KeptAlong;
      assert (sessions - {t}).Keys == sessions.Keys - {t};
      assert |(sessions - {t}).Keys| <= |sessions.Keys|;
      RunGrows(history, Ids(sessions.Keys - {t}, dead + {t}, committed));
      sessions, dead := sessions - {t}, dead + {t};
      history := history + [IdsNow()];
    }

    // Ends a session and removes its volume, if lvm lets it.
    method EndSession(t: string)
      requires ValidBut(t) && t in sessions
      requires var v := sessions[t].volume;
               v in client.lvs ==> client.lvs[v].state != Incoming || client.lvs[v].transfer == t
      modifies this, client
      ensures Valid() && sessions == old(sessions) - {t} && committed == old(committed) && dead == old(dead) + {t}
      ensures client.reused == old(client.reused) && old(client.trace) <= client.trace && old(history) <= history
      ensures client.lvs == old(client.lvs) || client.lvs == Removed(old(client.lvs), old(sessions[t].volume))
      ensures GoneOrRefused(client, old(sessions[t].volume), old(client.failed))
    {
      hide RunOf, AllLinked, KeptAlong, Sound;
      var volume := sessions[t].volume;
      Finish(t);
      var _ := RemoveVolume(client, volume);
      LinksElsewhere(sha, old(client.lvs), client.lvs, sessions, t, volume);
    }

    method Destroy(t: string)
      requires Valid()
      modifies this, client
      ensures Valid() && Later(old(IdsNow()), IdsNow())
      ensures client.reused == old(client.reused) && old(client.trace) <= client.trace && old(history) <= history
      ensures sessions == old(sessions) - {t} && committed == old(committed)
      ensures dead == if t in old(sessions) then old(dead) + {t} else old(dead)
      ensures || client.lvs == old(client.lvs)
              || (t in old(sessions) && client.lvs == Removed(old(client.lvs), old(sessions[t].volume)))
      ensures t in old(sessions) ==> GoneOrRefused(client, old(sessions)[t].volume, old(client.failed))
    {
      hide RunOf, AllLinked, KeptAlong, Sound, ValidBut, Removed, Later, Disjoint, GoneOrRefused;
      if t in sessions {
        LinkAt(sha, client.lvs, sessions, t);
        ValidEnough(t);
        LaterEnded(IdsNow(), t);
        ghost var before := sessions;
        EndSession(t);
        assert sessions.Keys == before.Keys - {t};
      } else {
        assert sessions - {t} == sessions;
        LaterNow();
      }
    }

    // Aborting an unknown or finished transfer succeeds.
    method Abort(t: string)
      requires Valid()
      modifies this, client
      ensures Valid() && Later(old(IdsNow()), IdsNow())
      ensures client.reused == old(client.reused) && old(client.trace) <= client.trace && old(history) <= history
      ensures sessions == old(sessions) - {t} && committed == old(committed)
      ensures dead == if t in old(sessions) then old(dead) + {t} else old(dead)
      ensures || client.lvs == old(client.lvs)
              || (t in old(sessions) && client.lvs == Removed(old(client.lvs), old(sessions[t].volume)))
      ensures t in old(sessions) ==> GoneOrRefused(client, old(sessions)[t].volume, old(client.failed))
    {
      hide RunOf, AllLinked, KeptAlong, Disjoint, Later, GoneOrRefused;
      Destroy(t);
    }

    // The grace period ends. Attach stops the timer, but not a callback that already waits for the
    // lock, so a stream may be attached again.
    method Expire(t: string)
      requires Valid()
      modifies this, client
      ensures Valid() && Later(old(IdsNow()), IdsNow())
      ensures client.reused == old(client.reused) && old(client.trace) <= client.trace && old(history) <= history
      ensures sessions == old(sessions) - {t} && committed == old(committed)
      ensures dead == if t in old(sessions) then old(dead) + {t} else old(dead)
      ensures || client.lvs == old(client.lvs)
              || (t in old(sessions) && client.lvs == Removed(old(client.lvs), old(sessions[t].volume)))
      ensures t in old(sessions) ==> GoneOrRefused(client, old(sessions)[t].volume, old(client.failed))
    {
      hide RunOf, AllLinked, KeptAlong, Disjoint, Later, GoneOrRefused;
      Destroy(t);
    }

    // ----------------------------------------------------------------------------- the frames

    // One frame of a session.
    method Write(t: string, offset: uint64, data: Bytes, disk: Disk) returns (r: Answer)
      requires Valid()
      modifies this, client
      ensures Valid() && IdsNow() == old(IdsNow())
      ensures client.reused == old(client.reused) && old(client.trace) <= client.trace && history == old(history)
      ensures t !in old(sessions) ==> r.TransferUnknown? && client.lvs == old(client.lvs) && sessions == old(sessions)
      ensures t in old(sessions) ==>
                var ses, lvs := old(sessions)[t], old(client.lvs);
                && Linked(sha, lvs, t, ses)
                && var w := WriteFrame(sha, Receiver(ses, lvs[ses.volume].content), offset, data, disk);
                   && r == Framed(w.error) && sessions == old(sessions)[t := w.after.session]
                   && client.lvs == lvs[ses.volume := lvs[ses.volume].(content := w.after.device)]
    {
      hide RunOf, AllLinked, KeptAlong, Sound, WriteFrame;
      if t !in sessions {
        return TransferUnknown;
      }
      var ses := sessions[t];
      LinkAt(sha, client.lvs, sessions, t);
      var device := client.lvs[ses.volume].content;
      SoundFits(sha, Receiver(ses, device));
      var after, written, error;
      after, written, error := ApplyFrame(sha, ses, device, offset, data, disk);
      client.WriteDevice(ses.volume, written);
      LinksAfterFrame(sha, old(client.lvs), sessions, t, offset, data, disk);
      sessions := sessions[t := after];
      assert sessions.Keys == old(sessions.Keys) && |sessions| == |sessions.Keys|;
      r := Framed(error);
    }

    // ------------------------------------------------------------------------------ the commit

    // What a commit leaves on the node, by its answer.
    ghost predicate CommitLeaves(lvs: Lvs, v: string, told: seq<Call>, r: Answer)
      requires v in lvs
      reads client
    {
      var idle, done := lvs[v].(active := false), lvs[v].(state := Ready, active := false, transfer := "");
      && (r.Ok? ==> client.lvs == lvs[v := done])
      && (!r.Ok? ==> GoneOrRefused(client, v, told))
      && (r.DigestMismatch? ==> client.lvs == lvs || client.lvs == Removed(lvs, v))
      && (r.Failed? ==> client.lvs == Removed(lvs, v) || OneOf(lvs, client.lvs, v, idle, done))
    }

    // Fills the tail, compares the digest, makes the volume durable and READY. The transfer ends
    // either way, and repeating a commit that landed succeeds again.
    method Commit(t: string, digest: Bytes, syncs: bool) returns (r: Answer)
      requires Valid()
      modifies this, client
      ensures Valid() && Later(old(IdsNow()), IdsNow())
      ensures client.reused == old(client.reused) && old(client.trace) <= client.trace && old(history) <= history
      ensures t in old(committed) ==> r.Ok?
      ensures r.TransferBusy? <==> t in old(sessions) && old(sessions)[t].streaming
      ensures r.TransferUnknown? <==> t !in old(sessions) && t !in old(committed)
      ensures t !in old(sessions) || r.TransferBusy? ==> IdsNow() == old(IdsNow()) && client.lvs == old(client.lvs)
      ensures t in old(sessions) && !r.TransferBusy? ==>
                && Linked(sha, old(client.lvs), t, old(sessions)[t])
                && sessions == old(sessions) - {t} && dead == old(dead) + {t}
                && committed == (if r.Ok? then old(committed) + {t} else old(committed))
                && (r.DigestMismatch? <==> !Accepts(sha, old(sessions)[t], digest))
                && (r.Failed? ==> (old(sessions)[t].open && !syncs) || old(client.failed) < client.failed)
                && (r.Ok? ==> (old(sessions)[t].open ==> syncs) && client.failed == old(client.failed))
                && CommitLeaves(old(client.lvs), old(sessions)[t].volume, old(client.failed), r)
    {
      hide RunOf, AllLinked, KeptAlong, Linked, CommitLeaves;
      if t !in sessions || sessions[t].streaming {
        return if t in committed then Ok else if t in sessions then TransferBusy else TransferUnknown;
      }
      LinkAt(sha, client.lvs, sessions, t);
      r := CommitLive(t, digest, syncs);
    }

    // The commit of a live session without a stream.
    method CommitLive(t: string, digest: Bytes, syncs: bool) returns (r: Answer)
      requires Valid() && t in sessions && Linked(sha, client.lvs, t, sessions[t])
      modifies this, client
      ensures Valid() && sessions == old(sessions) - {t} && dead == old(dead) + {t}
      ensures client.reused == old(client.reused) && old(client.trace) <= client.trace && old(history) <= history
      ensures committed == if r.Ok? then old(committed) + {t} else old(committed)
      ensures r.Ok? || r.DigestMismatch? || r.Failed?
      ensures r.DigestMismatch? <==> !Accepts(sha, old(sessions)[t], digest)
      ensures r.Failed? ==> (old(sessions)[t].open && !syncs) || old(client.failed) < client.failed
      ensures r.Ok? ==> (old(sessions)[t].open ==> syncs) && client.failed == old(client.failed)
      ensures CommitLeaves(old(client.lvs), old(sessions)[t].volume, old(client.failed), r)
    {
      hide RunOf, AllLinked, KeptAlong, Sound, Fill, ValidBut;
      var ses := sessions[t];
      ValidEnough(t);
      var log := FillGap(sha, ses.log, ses.next, ses.size, ses.size);
      if SumOf(sha, log, ses.size) != digest {
        EndSession(t);
        return DigestMismatch;
      }
      if ses.open && !syncs {
        EndSession(t);
        return Failed;
      }
      r := Land(t);
    }

    // The lvm half of a commit whose digest matched.
    method Land(t: string) returns (r: Answer)
      requires Valid() && t in sessions && Linked(sha, client.lvs, t, sessions[t])
      modifies this, client
      ensures Valid() && sessions == old(sessions) - {t} && dead == old(dead) + {t}
      ensures client.reused == old(client.reused) && old(client.trace) <= client.trace && old(history) <= history
      ensures committed == if r.Ok? then old(committed) + {t} else old(committed)
      ensures (r.Ok? || r.Failed?) && Told(old(client.failed), client.failed, r.Ok?)
      ensures CommitLeaves(old(client.lvs), old(sessions)[t].volume, old(client.failed), r)
    {
      hide RunOf, AllLinked, KeptAlong, Sound, ValidBut, Removed;
      var volume := sessions[t].volume;
      var readied := ReadyLinked(t);
      if !readied {
        ghost var mid := client.lvs[volume];
        EndSession(t);
        RemovedAlike(old(client.lvs), volume, mid);
        return Failed;
      }
      FinishCommitted(t);
      r := Ok;
    }

    // Deactivates and retags the session's volume.
    method ReadyLinked(t: string) returns (ok: bool)
      requires Valid() && t in sessions && Linked(sha, client.lvs, t, sessions[t])
      modifies client
      ensures ValidBut(t) && committed !! {t}
      ensures client.reused == old(client.reused) && old(client.trace) <= client.trace
      ensures Told(old(client.failed), client.failed, ok)
      ensures var lvs, v := old(client.lvs), sessions[t].volume;
              var idle, done := lvs[v].(active := false), lvs[v].(state := Ready, active := false, transfer := "");
              && OneOf(lvs, client.lvs, v, idle, done) && (ok ==> client.lvs == lvs[v := done])
              && v in client.lvs && (client.lvs[v].state != Incoming || client.lvs[v].transfer == t)
    {
      hide RunOf, AllLinked, KeptAlong, Sound;
      ValidEnough(t);
      var readied := ReadyReceived(client, sessions[t].volume);
      LinksElsewhere(sha, old(client.lvs), client.lvs, sessions - {t}, t, sessions[t].volume);
      ok := readied.Done?;
    }

    method FinishCommitted(t: string)
      requires ValidBut(t) && t in sessions && t !in committed
      modifies this
      ensures Valid() && sessions == old(sessions) - {t} && dead == old(dead) + {t} && committed == old(committed) + {t}
      ensures old(history) <= history
    {
      hide RunOf, AllLinked, KeptAlong;
      committed := committed + {t};
      assert committed - {t} == old(committed) - {t};
      Finish(t);
    }
  }

  lemma RemovedAlike(lvs: Lvs, v: string, lv: LV)
    ensures Removed(lvs[v := lv], v) == Removed(lvs, v)
  {
  }

  lemma NewLinked(sha: Sha, lvs: Lvs, t: string, volume: string, size: DeviceSize)
    requires volume in lvs && lvs[volume] == Thin(Incoming, true, size, t)
    ensures Linked(sha, lvs, t, NewSession(volume, size))
  {
    NewReceiverSound(sha, volume, size);
  }

  // A committed volume holds exactly the content whose digest was sent.
  lemma CommitMeansEqual(sha: Sha, lvs: Lvs, t: string, ses: Session, content: Bytes)
    requires Linked(sha, lvs, t, ses) && |content| < TWO_64
    requires Accepts(sha, ses, ContentDigest(sha, content))
    requires Distinguishes(sha, Seal(sha, ses), lvs[ses.volume].content, content)
    ensures lvs[ses.volume].content == content
  {
    CommitAcceptsIff(sha, Receiver(ses, lvs[ses.volume].content), content);
  }

  // The node the move protocol sees behind one transfer of the table.
  function NodeView(lvs: Lvs, volume: string, inbound: C.Inbound, dead: set<string>, committed: set<string>): C.Node {
    C.Node(CopyAt(lvs, volume), inbound, dead, committed, C.Idle)
  }

  // What PrepareReceive leaves behind, created, failed or created behind a failure, is the protocol's
  // prepare, and what the end of a session leaves is the protocol's.
  lemma PrepareIsTheProtocolStep(sha: Sha, s: C.Nodes, n: string, lvs: Lvs, after: Lvs, t: string, ses: Session,
                                 volume: string, size: DeviceSize, dead: set<string>, committed: set<string>)
    requires C.Enabled(s, C.Prepare(n, t, size, C.Works)) && s[n] == NodeView(lvs, volume, C.NoSession, dead, committed)
    ensures Prepared(lvs, after, t, ses, volume, size) ==>
              && C.Next(sha, s, C.Prepare(n, t, size, C.Works))[n]
                 == NodeView(after, volume, C.Live(t, ses.(volume := "")), dead, committed)
              && C.Next(sha, s, C.Prepare(n, t, size, C.Misreports))[n]
                 == NodeView(after, volume, C.NoSession, dead + {t}, committed)
    ensures C.Next(sha, s, C.Prepare(n, t, size, C.Fails))[n]
            == NodeView(lvs, volume, C.NoSession, dead + {t}, committed)
  {
    assert Prepared(lvs, after, t, ses, volume, size) ==> after[volume].content == Zeros(size);
  }

  lemma EndIsTheProtocolStep(lvs: Lvs, after: Lvs, t: string, ses: Session, dead: set<string>, committed: set<string>)
    requires ses.volume in lvs && lvs[ses.volume].state != Foreign && GoneOrKept(lvs, after, ses.volume)
    ensures C.Destroyed(NodeView(lvs, ses.volume, C.Live(t, ses), dead, committed), ses.volume !in after)
            == NodeView(after, ses.volume, C.NoSession, dead + {t}, committed)
  {
  }

  function Readied(lvs: Lvs, v: string): Lvs
    requires v in lvs
  {
    lvs[v := lvs[v].(state := Ready, active := false, transfer := "")]
  }

  // What Commit leaves behind is what the protocol's commit makes of the node: for a digest that
  // matches and lands, for one that matches while sync, lvm or the retag fails or the retag lands
  // behind a failure report, and for one that does not match. The removal of the volume may fail too.
  lemma CommitIsTheProtocolStep(sha: Sha, lvs: Lvs, after: Lvs, t: string, ses: Session, dead: set<string>,
                                committed: set<string>, digest: Bytes)
    requires Linked(sha, lvs, t, ses) && !ses.streaming
    ensures var v, ready := ses.volume, Readied(lvs, ses.volume);
            var before := NodeView(lvs, v, C.Live(t, ses), dead, committed);
            var ended := NodeView(after, v, C.NoSession, dead + {t}, committed);
            && (Accepts(sha, ses, digest) && after == ready ==>
                  && C.CommitOn(sha, before, t, digest, C.Works, true)
                      == C.Outcome(ended.(committed := committed + {t}), C.Ok)
                  && C.CommitOn(sha, before, t, digest, C.Misreports, false) == C.Outcome(ended, C.Internal))
            && (Accepts(sha, ses, digest) && GoneOrKept(lvs, after, v) ==>
                  C.CommitOn(sha, before, t, digest, C.Fails, v !in after) == C.Outcome(ended, C.Internal))
            && (!Accepts(sha, ses, digest) && GoneOrKept(lvs, after, v) ==>
                  C.CommitOn(sha, before, t, digest, C.Works, v !in after) == C.Outcome(ended, C.DataLoss))
  {
    hide Sound, Accepts;
  }

  lemma SoundFits(sha: Sha, rcv: Receiver)
    requires Sound(sha, rcv)
    ensures rcv.Fits() && (rcv.session.next % CHUNK == 0 || rcv.session.next == rcv.session.size)
  {
  }

  // A frame keeps every session linked, the one it was for included.
  lemma LinksAfterFrame(sha: Sha, lvs: Lvs, sessions: map<string, Session>, t: string, offset: uint64, data: Bytes,
                        disk: Disk)
    requires AllLinked(sha, lvs, sessions) && t in sessions && Linked(sha, lvs, t, sessions[t])
    requires Receiver(sessions[t], lvs[sessions[t].volume].content).Fits()
    ensures var w := WriteFrame(sha, Receiver(sessions[t], lvs[sessions[t].volume].content), offset, data, disk);
            AllLinked(sha, lvs[sessions[t].volume := lvs[sessions[t].volume].(content := w.after.device)],
                sessions[t := w.after.session])
  {
    hide Sound, AllLinked;
    var ses := sessions[t];
    var rcv := Receiver(ses, lvs[ses.volume].content);
    var w := WriteFrame(sha, rcv, offset, data, disk);
    var after := lvs[ses.volume := lvs[ses.volume].(content := w.after.device)];
    WriteKeepsSound(sha, rcv, offset, data, disk);
    LinkDropped(sha, lvs, sessions, t);
    LinksElsewhere(sha, lvs, after, sessions - {t}, t, ses.volume);
    assert Linked(sha, after, t, w.after.session);
    LinkReplaced(sha, after, sessions - {t}, t, w.after.session);
    assert (sessions - {t})[t := w.after.session] == sessions[t := w.after.session];
  }

  // Skipped chunks enter the hash stream as zero chunks. Lengths are uint64 and wrap.
  method FillGap(sha: Sha, log: HashLog, lo: uint64, hi: uint64, size: DeviceSize) returns (filled: HashLog)
    requires hi <= TWO_64 - CHUNK
    ensures filled == Fill(sha, log, lo, hi, size)
  {
    var gap: uint64 := lo;
    filled := log;
    while gap < hi
      invariant Fill(sha, filled, gap, hi, size) == Fill(sha, log, lo, hi, size)
      decreases hi - gap
    {
      var left: uint64 := if gap <= size then size - gap else TWO_64 - (gap - size);
      filled := LogZeroChunk(sha, filled, Min(CHUNK, left));
      gap := gap + CHUNK;
    }
  }

  // Checks the frame, opens the device, fills the gap, hashes, writes, and only then moves the
  // offset. The disk behaves as it does.
  method ApplyFrame(sha: Sha, ses: Session, device: Bytes, offset: uint64, data: Bytes, disk: Disk)
      returns (after: Session, written: Bytes, error: WriteError)
    requires Receiver(ses, device).Fits()
    ensures WriteFrame(sha, Receiver(ses, device), offset, data, disk) == WriteResult(Receiver(after, written), error)
  {
    after, written := ses, device;
    if offset % CHUNK != 0 {
      error := BadFrame;
    } else if offset < ses.next {
      error := BadFrame;
    } else if (offset + |data|) % TWO_64 > ses.size {
      error := BadFrame;
    } else if |data| == 0 || |data| > CHUNK {
      error := BadFrame;
    } else if |data| < CHUNK && (offset + |data|) % TWO_64 != ses.size {
      error := BadFrame;
    } else {
      if !ses.open && disk.OpenFails? {
        error := DiskError;
        return;
      }
      var log := FillGap(sha, ses.log, ses.next, offset, ses.size);
      after := ses.(open := true, log := LogChunk(sha, log, data));
      error, written := WriteAt(device, offset, data, disk);
      if error.Accepted? {
        after := after.(next := offset + |data|);
      }
    }
  }

  // A write at a signed position. It may fail half way.
  method WriteAt(device: Bytes, offset: uint64, data: Bytes, disk: Disk) returns (error: WriteError, written: Bytes)
    requires offset < TWO_63 ==> offset + |data| <= |device|
    ensures |written| == |device|
    ensures error == if disk.Stored? && offset < TWO_63 then Accepted else DiskError
    ensures error.Accepted? ==> written == Overwrite(device, offset, data)
    ensures !error.Accepted? ==> written == if disk.Torn? && |disk.after| == |device| then disk.after else device
  {
    if disk.Stored? && offset < TWO_63 {
      return Accepted, Overwrite(device, offset, data);
    }
    error, written := DiskError, device;
    if disk.Torn? && |disk.after| == |device| {
      written := disk.after;
    }
  }
}
