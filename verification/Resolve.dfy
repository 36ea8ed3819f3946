/** The resolver of a restarted node (internal/api/resolve.go): one retry loop for each COMMITTING volume,
    all of them at once, with whatever their targets answer.
  */
module Resolve {
  import opened Lvm
  import opened Recover
  import opened Order
  import opened Clients
  import opened Volumes
  import opened Pushes

  // A volume the resolver takes on. Without its push tags it is left to manual repair.
  predicate Resolvable(lv: LV) {
    lv.state == Committing && lv.target != "" && lv.transfer != ""
  }

  // What an answer makes of it.
  function SettledBy(lv: LV, committed: bool): LV {
    lv.(state := if committed then Retired else Ready, active := false, transfer := "", target := "")
  }

  // The record after an attempt, lvm failures included: still COMMITTING with both tags, or settled
  // the way the target said.
  predicate Attempted(lv: LV, now: LV, committed: bool) {
    now == SettledBy(lv, committed) || now == lv.(active := now.active)
  }

  // tryResolve: settles by the target's answer, an unreachable target changes nothing.
  method TryResolve(c: Client, id: string, reached: bool, committed: bool) returns (settled: bool)
    requires c.Valid() && Volumes.Has(c.lvs, id, {Committing})
    modifies c
    ensures c.Valid() && c.reused == old(c.reused) && old(c.trace) <= c.trace && old(c.failed) <= c.failed
    ensures settled <==> reached
    ensures !reached ==> c.lvs == old(c.lvs) && c.failed == old(c.failed)
    ensures id in c.lvs && c.lvs == old(c.lvs)[id := c.lvs[id]] && Attempted(old(c.lvs)[id], c.lvs[id], committed)
    ensures reached && c.failed == old(c.failed) ==> c.lvs[id] == SettledBy(old(c.lvs)[id], committed)
  {
    hide Quiet, Orderly, KeptAlong;
    settled := reached;
    if reached {
      if committed {
        var _ := RetirePushed(c, id);
      } else {
        var _ := AbortPush(c, id);
      }
    }
  }

  // One turn of one volume's retry loop.
  datatype Try = Try(id: string, reached: bool, committed: bool)

  datatype Reply = Silent | Told(committed: bool)

  // The first answer a volume's target gives.
  function FirstAnswer(tries: seq<Try>, n: string): Reply {
    if tries == [] then Silent
    else
      var last := |tries| - 1;
      var before := FirstAnswer(tries[..last], n);
      if before.Silent? && tries[last].id == n && tries[last].reached then Reply.Told(tries[last].committed) else before
  }

  // What is left of one volume.
  predicate Resolved(lv: LV, now: LV, reply: Reply, failed: bool) {
    if lv.state == Committing && lv.target != "" && lv.transfer != "" && reply.Told? then
      Attempted(lv, now, reply.committed) && (!failed ==> now == SettledBy(lv, reply.committed))
    else now == lv
  }

  // After some turns of all the loops, in whatever order they came.
  ghost predicate Progress(before: Lvs, now: Lvs, done: seq<Try>, failed: bool) {
    && now.Keys == before.Keys
    && forall n :: n in before ==> Resolved(before[n], now[n], FirstAnswer(done, n), failed)
  }

  // The loops still running.
  ghost predicate Running(before: Lvs, pending: set<string>, done: seq<Try>) {
    forall n :: n in pending <==> n in before && Resolvable(before[n]) && FirstAnswer(done, n).Silent?
  }

  // A turn changes nothing but the first answer of its own volume.
  lemma AnswersAfter(done: seq<Try>, t: Try, n: string)
    ensures FirstAnswer(done + [t], n)
            == if FirstAnswer(done, n).Silent? && t.id == n && t.reached then Reply.Told(t.committed)
                else FirstAnswer(done, n)
  {
    assert (done + [t])[..|done|] == done;
  }

  lemma ResolvedStays(lv: LV, now: LV, reply: Reply, failed: bool, still: bool)
    requires Resolved(lv, now, reply, failed) && (failed ==> still)
    ensures Resolved(lv, now, reply, still)
  {
  }

  // resolveRecovered: every COMMITTING volume with both push tags is settled by the first answer its
  // target gives, in whatever order the loops take their turns, and nothing else is touched.
  method ResolveRecovered(c: Client, tries: seq<Try>) returns (ok: bool)
    requires c.Valid()
    modifies c
    ensures c.Valid() && c.reused == old(c.reused) && old(c.trace) <= c.trace && old(c.failed) <= c.failed
    ensures !ok ==> c.lvs == old(c.lvs) && old(c.failed) < c.failed
    ensures ok ==> Progress(old(c.lvs), c.lvs, tries, c.failed != old(c.failed))
  {
    hide Quiet, Orderly, KeptAlong, Progress, Running, Listed, FirstAnswer;
    ghost var before := c.lvs;
    var volumes;
    ok, volumes := c.ListVolumes();
    if !ok {
      return;
    }
    var pending := set n | n in volumes && n in c.lvs && Resolvable(c.lvs[n]);
    LoopsStart(before, volumes, pending);
    var i := 0;
    while i < |tries|
      invariant 0 <= i <= |tries| && c.Valid() && c.reused == old(c.reused) && old(c.trace) <= c.trace
      invariant old(c.failed) <= c.failed && Progress(before, c.lvs, tries[..i], c.failed != old(c.failed))
      invariant Running(before, pending, tries[..i])
    {
      pending := Turn(c, before, tries[..i], tries[i], pending, old(c.failed));
      assert tries[..i] + [tries[i]] == tries[..i + 1];
      i := i + 1;
    }
    assert tries[..i] == tries;
  }

  lemma LoopsStart(before: Lvs, volumes: seq<string>, pending: set<string>)
    requires IsScan(before, volumes) && pending == set n | n in volumes && n in before && Resolvable(before[n])
    ensures Progress(before, before, [], false) && Running(before, pending, [])
  {
    forall n | n in before && Resolvable(before[n]) ensures n in volumes {
      assert Owned(before, n);
    }
  }

  method Turn(c: Client, ghost before: Lvs, ghost done: seq<Try>, t: Try, pending: set<string>, ghost told: seq<Call>)
      returns (left: set<string>)
    requires c.Valid() && told <= c.failed
    requires Progress(before, c.lvs, done, c.failed != told) && Running(before, pending, done)
    modifies c
    ensures c.Valid() && c.reused == old(c.reused) && old(c.trace) <= c.trace && told <= c.failed
    ensures Progress(before, c.lvs, done + [t], c.failed != told) && Running(before, left, done + [t])
  {
    hide Quiet, Orderly, KeptAlong, FirstAnswer, SettledBy;
    ghost var mid, said := c.lvs, c.failed;
    left := pending;
    forall n ensures FirstAnswer(done + [t], n)
                     == if FirstAnswer(done, n).Silent? && t.id == n && t.reached then Reply.Told(t.committed)
                         else FirstAnswer(done, n) {
      AnswersAfter(done, t, n);
    }
    if t.id in pending {
      assert c.lvs[t.id] == before[t.id];
      var settled := TryResolve(c, t.id, t.reached, t.committed);
      if settled {
        left := pending - {t.id};
      }
    }
    forall n | n in before ensures Resolved(before[n], c.lvs[n], FirstAnswer(done + [t], n), c.failed != told) {
      if n != t.id || t.id !in pending || !t.reached {
        ResolvedStays(before[n], mid[n], FirstAnswer(done, n), said != told, c.failed != told);
      }
    }
  }
}
