/** No loss, over whole runs of module Cluster: a copy that is retired was handed over by a commit of
    that very push, which left exactly its bytes on the target.
  */
module Handover {
  import opened Digest
  import opened Sessions
  import L = Lvm
  import opened Cluster

  // The first events of a run are a run, and the next one is enabled after them.
  lemma {:induction false} RunPrefix(sha: Sha, s: Nodes, run: seq<Event>, k: nat)
    requires Runs(sha, s, run) && k < |run|
    ensures Runs(sha, s, run[..k])
    ensures var before := After(sha, s, run[..k]);
            Enabled(before, run[k]) && NoCollisionIn(sha, before, run[k])
    ensures Runs(sha, s, run[..k + 1]) && After(sha, s, run[..k + 1]) == Next(sha, After(sha, s, run[..k]), run[k])
    decreases k
  {
    hide Enabled, Next, NoCollisionIn;
    assert run[..k + 1] == run[..k] + [run[k]];
    if k > 0 {
      var rest := run[1..];
      RunPrefix(sha, Next(sha, s, run[0]), rest, k - 1);
      assert run[..k] == [run[0]] + rest[..k - 1] && rest[k - 1] == run[k];
      assert run[..k][1..] == rest[..k - 1];
      AppendRun(sha, s, run[..k], run[k]);
    } else {
      AppendRun(sha, s, run[..0], run[0]);
    }
  }

  // ------------------------------------------------------------------ single steps of one push

  lemma OwnCopyKept(sha: Sha, s: Nodes, e: Event)
    requires Enabled(s, e) && NodeOk(sha, s[e.n]) && Has(s, e.n, L.Committing) && !e.Deliver? && !e.Answer?
    requires Has(Next(sha, s, e), e.n, L.Committing)
    ensures Next(sha, s, e)[e.n].copy == s[e.n].copy
  {
    hide Sound, WriteFrame, Answers, TargetLive, React, DriverFits;
  }

  lemma CommitCopyKept(sha: Sha, s: Nodes, e: Event)
    requires Enabled(s, e) && NodeOk(sha, s[e.n]) && Has(s, e.n, L.Committing) && (e.Deliver? || e.Answer?)
    ensures Next(sha, s, e)[e.n].copy == s[e.n].copy
  {
    hide Sound, CommitOn, React, DriverFits;
    var copy := s[e.n].copy;
    CommitLeavesOthers(sha, s[e.n], copy.transfer, ContentDigest(sha, copy.content), e.report, e.removed);
  }

  // While a copy stays COMMITTING nothing in it changes.
  lemma CommittingKept(sha: Sha, s: Nodes, e: Event, n: string)
    requires Inv(sha, s) && Enabled(s, e) && Has(s, n, L.Committing) && Has(Next(sha, s, e), n, L.Committing)
    ensures Next(sha, s, e)[n].copy == s[n].copy
  {
    hide Next, Enabled;
    assert NodeOk(sha, s[n]);
    if e.n != n {
      OthersUntouched(sha, s, e, n);
    } else if e.Deliver? || e.Answer? {
      CommitCopyKept(sha, s, e);
    } else {
      OwnCopyKept(sha, s, e);
    }
  }

  // A copy only becomes COMMITTING while its target holds nothing.
  lemma NotLandedAtMark(sha: Sha, s: Nodes, e: Event, n: string)
    requires Inv(sha, s) && Enabled(s, e) && !Has(s, n, L.Committing)
    ensures !Landed(Next(sha, s, e), n)
  {
    hide Sound, WriteFrame, Accepts, React, OneOwner, DriverFits;
    if Has(Next(sha, s, e), n, L.Committing) {
      BecomesCommitting(sha, s, e, n);
      assert LinkOk(s, n);
    }
  }

  lemma CommitNeverMarks(sha: Sha, n: Node, transfer: string, digest: Bytes, report: Report, removed: bool)
    requires n.inbound.Live? ==> n.copy.Copy? && n.copy.state == L.Incoming
    ensures var after := CommitOn(sha, n, transfer, digest, report, removed).node;
            after.copy.Copy? && after.copy.state == L.Committing ==> n.copy.Copy? && n.copy.state == L.Committing
  {
    hide Accepts;
  }

  lemma OwnMark(sha: Sha, s: Nodes, e: Event)
    requires Enabled(s, e) && NodeOk(sha, s[e.n]) && !e.Deliver? && !e.Answer?
    requires !Has(s, e.n, L.Committing) && Has(Next(sha, s, e), e.n, L.Committing)
    ensures e.MarkCommitting? && s[e.n].driver.Streamed? && Next(sha, s, e)[e.n].copy.target == s[e.n].copy.target
    ensures Next(sha, s, e) == s[e.n := Next(sha, s, e)[e.n]]
  {
    hide Sound, WriteFrame, React, DriverFits, Answers, TargetLive;
  }

  lemma BecomesCommitting(sha: Sha, s: Nodes, e: Event, n: string)
    requires Inv(sha, s) && Enabled(s, e) && !Has(s, n, L.Committing) && Has(Next(sha, s, e), n, L.Committing)
    ensures e.MarkCommitting? && e.n == n && s[n].driver.Streamed?
    ensures Next(sha, s, e) == s[n := Next(sha, s, e)[n]] && Next(sha, s, e)[n].copy.target == s[n].copy.target
  {
    hide Sound, WriteFrame, React, OneOwner, LinkOk, DriverFits, Answers, TargetLive, CommitOn;
    if e.Deliver? || e.Answer? {
      var copy := s[e.n].copy;
      assert NodeOk(sha, s[copy.target]);
      CommitNeverMarks(sha, s[copy.target], copy.transfer, ContentDigest(sha, copy.content), e.report, e.removed);
    } else if e.n == n {
      OwnMark(sha, s, e);
    }
  }

  // A commit that is open lands only by this push's own CommitTransfer.
  lemma LandsByItsCommit(sha: Sha, s: Nodes, e: Event, n: string)
    requires Inv(sha, s) && Enabled(s, e) && Has(s, n, L.Committing) && !Landed(s, n) && Landed(Next(sha, s, e), n)
    ensures e.n == n && (e.Deliver? || e.Answer?)
  {
    hide Sound, WriteFrame, Accepts, React, OneOwner, DriverFits, CommitOn, TargetLive;
    CommittingKept(sha, s, e, n);
    assert LinkOk(s, n);
    if e.n != n && (e.Deliver? || e.Answer?) {
      TargetIsMine(sha, s, n, e.n);
    }
  }

  // ------------------------------------------------------------------------------- whole runs

  lemma RunsUpTo(sha: Sha, s: Nodes, run: seq<Event>, k: nat)
    requires Runs(sha, s, run) && k <= |run|
    ensures Runs(sha, s, run[..k])
  {
    if k < |run| {
      RunPrefix(sha, s, run, k);
    } else {
      assert run[..k] == run;
    }
  }

  ghost function StateAt(sha: Sha, s: Nodes, run: seq<Event>, k: nat): Nodes
    requires Runs(sha, s, run) && k <= |run|
  {
    RunsUpTo(sha, s, run, k);
    After(sha, s, run[..k])
  }

  lemma StateNext(sha: Sha, s: Nodes, run: seq<Event>, k: nat)
    requires Fresh(s) && Runs(sha, s, run) && k < |run|
    ensures var before := StateAt(sha, s, run, k);
            && Inv(sha, before) && Enabled(before, run[k]) && NoCollisionIn(sha, before, run[k])
            && StateAt(sha, s, run, k + 1) == Next(sha, before, run[k])
  {
    hide Inv, Enabled, Next, NoCollisionIn;
    RunPrefix(sha, s, run, k);
    FreshInv(sha, s);
    RunRefines(sha, s, run[..k]);
  }

  // Event k is the CommitTransfer of n's push that lands: the target holds n's bytes READY right
  // after it, and n's copy is the one it still has, push tags included, after the first j events.
  ghost predicate HandedOver(sha: Sha, s: Nodes, run: seq<Event>, n: string, k: nat, j: nat)
    requires Runs(sha, s, run)
  {
    && k < j <= |run| && run[k].n == n && (run[k].Deliver? || run[k].Answer?)
    && var before, after, now := StateAt(sha, s, run, k), StateAt(sha, s, run, k + 1), StateAt(sha, s, run, j);
       && Has(before, n, L.Committing) && !Landed(before, n) && Landed(after, n)
       && n in now && now[n].copy == before[n].copy
       && var t := before[n].copy.target;
          Has(after, t, L.Ready) && after[t].copy.content == now[n].copy.content
  }

  // A copy whose commit has landed was handed over at some point of the run.
  lemma {:induction false} LandedWasHandedOver(sha: Sha, s: Nodes, run: seq<Event>, n: string, j: nat) returns (k: nat)
    requires Fresh(s) && Runs(sha, s, run) && j <= |run| && Landed(StateAt(sha, s, run, j), n)
    ensures HandedOver(sha, s, run, n, k, j)
    decreases j
  {
    hide Runs, After, Enabled, Next, NoCollisionIn, Inv, StateAt;
    if j == 0 {
      NothingAtTheStart(sha, s, run, n);
      assert false;
    } else {
      var before := StateAt(sha, s, run, j - 1);
      StateNext(sha, s, run, j - 1);
      if !Has(before, n, L.Committing) {
        NotLandedAtMark(sha, before, run[j - 1], n);
        assert false;
      } else {
        CommittingKept(sha, before, run[j - 1], n);
        if Landed(before, n) {
          k := LandedWasHandedOver(sha, s, run, n, j - 1);
        } else {
          k := j - 1;
          LandsByItsCommit(sha, before, run[k], n);
          HandoverExact(sha, before, run[k]);
        }
      }
    }
  }

  lemma NothingAtTheStart(sha: Sha, s: Nodes, run: seq<Event>, n: string)
    requires Fresh(s) && Runs(sha, s, run)
    ensures !Landed(StateAt(sha, s, run, 0), n)
  {
    assert run[..0] == [];
  }

  // No loss: in every run that comes to retire a copy, an earlier commit of that push left exactly
  // the bytes the copy still has READY on the target.
  lemma NoLoss(sha: Sha, s: Nodes, run: seq<Event>, e: Event) returns (k: nat)
    requires Fresh(s) && Runs(sha, s, run) && Enabled(After(sha, s, run), e) && e.Retire?
    ensures HandedOver(sha, s, run, e.n, k, |run|)
    ensures var r := Next(sha, After(sha, s, run), e);
            e.ok ==> Has(r, e.n, L.Retired) && r[e.n].copy.content == After(sha, s, run)[e.n].copy.content
  {
    hide Runs, After, Landed;
    assert run[..|run|] == run;
    RetiresOnlyLanded(sha, s, run, e);
    k := LandedWasHandedOver(sha, s, run, e.n, |run|);
  }
}
