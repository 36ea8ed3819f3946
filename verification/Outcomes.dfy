/** What recovery makes of every volume, written out state by state (internal/storage/recover.go).

    Module Recover ends in the fixed point of the commands. Here the same end is described on the
    fields of the records alone.
  */
module Outcomes {
  import opened Lvm
  import opened Recover

  // A volume recovery takes away: half made, half deleted, half received, or the copy of a rollback
  // whose original is still there.
  predicate Doomed(lvs: Lvs, n: string) {
    n in lvs &&
    var lv := lvs[n];
    || lv.state in {Creating, Deleting, Incoming}
    || (&& lv.state == Rollback && lv.rollbackTarget !in {"", n}
        && lv.rollbackTarget in lvs && lvs[lv.rollbackTarget].state != Foreign)
  }

  // A copy of a rollback whose original is gone. It takes the original's name.
  predicate Replaces(lvs: Lvs, n: string, x: string) {
    n in lvs && lvs[n].state == Rollback && lvs[n].rollbackTarget == x && x !in {"", n} && x !in lvs
  }

  // The name of an lv once recovery is through.
  function NameAfter(lvs: Lvs, n: string): string {
    if Doomed(lvs, n) then ""
    else if n in lvs && Replaces(lvs, n, lvs[n].rollbackTarget) then lvs[n].rollbackTarget
    else n
  }

  // The volume is there under the name, with these fields and the original's bytes, and the rest as
  // it was but for the name of lvm's origin.
  predicate Ends(lvs: Lvs, n: string, r: Lvs, m: string, state: State, active: bool)
    requires n in lvs
  {
    && m in r && r[m].state == state && r[m].active == active && r[m].content == lvs[n].content
    && r[m].lvmOrigin == NameAfter(lvs, lvs[n].lvmOrigin)
  }

  predicate KeepsTags(a: LV, b: LV) {
    && a.skip == b.skip && a.transfer == b.transfer && a.target == b.target
    && a.rollbackTarget == b.rollbackTarget && a.origin == b.origin
  }

  predicate Outcome(lvs: Lvs, n: string, r: Lvs)
    requires n in lvs
  {
    var lv := lvs[n];
    match lv.state
    case Creating => n !in r
    case Deleting => n !in r
    case Incoming => n !in r
    case Attached => Ends(lvs, n, r, n, Attached, lv.active || !lv.skip) && KeepsTags(r[n], lv)
    case Snapshot =>
      && Ends(lvs, n, r, n, Snapshot, false)
      && r[n].origin == (if lv.origin != "" then lv.origin else lv.lvmOrigin)
      && KeepsTags(r[n], lv.(origin := r[n].origin))
    case Pushing => Ends(lvs, n, r, n, Ready, false) && KeepsTags(r[n], lv.(transfer := "", target := ""))
    case Rollback =>
      var x := lv.rollbackTarget;
      if x == n then
        Ends(lvs, n, r, n, Ready, lv.active) && KeepsTags(r[n], lv.(rollbackTarget := "", skip := false))
      else if Replaces(lvs, n, x) then
        n !in r && Ends(lvs, n, r, x, Ready, lv.active) && KeepsTags(r[x], lv.(rollbackTarget := "", skip := false))
      else if Doomed(lvs, n) then
        n !in r
      else
        Ends(lvs, n, r, n, Rollback, lv.active) && KeepsTags(r[n], lv)
    case _ => Ends(lvs, n, r, n, lv.state, lv.active) && KeepsTags(r[n], lv)
  }

  // Each volume has its outcome, and no other name is in use.
  ghost predicate EndsByState(lvs: Lvs, r: Lvs) {
    && (forall n :: n in lvs ==> Outcome(lvs, n, r))
    && (forall m :: m in r ==> m in lvs || exists n :: Replaces(lvs, n, m))
  }

  lemma NamesAgree(lvs: Lvs, n: string)
    ensures NewName(lvs, n) == NameAfter(lvs, n)
    ensures n in lvs ==> (FateOf(lvs, n).Goes? <==> Doomed(lvs, n))
    ensures n in lvs && FateOf(lvs, n).Moves? ==> Replaces(lvs, n, lvs[n].rollbackTarget)
    ensures n in lvs && lvs[n].state == Rollback && Replaces(lvs, n, lvs[n].rollbackTarget) ==> FateOf(lvs, n).Moves?
  {
  }

  lemma NotAmongSettled(lvs: Lvs, n: string)
    requires n in lvs && !FateOf(lvs, n).Stays?
    ensures n !in Settled(lvs)
  {
    forall k | k in lvs && !FateOf(lvs, k).Goes? ensures NewName(lvs, k) != n {
    }
  }

  lemma SettledOutcome(lvs: Lvs, n: string)
    requires Single(lvs) && n in lvs
    ensures Outcome(lvs, n, Settled(lvs))
  {
    hide Settled;
    NamesAgree(lvs, n);
    NamesAgree(lvs, lvs[n].lvmOrigin);
    if !FateOf(lvs, n).Goes? {
      SettledFrom(lvs, n, NewName(lvs, n));
    }
    if !FateOf(lvs, n).Stays? {
      NotAmongSettled(lvs, n);
    }
  }

  lemma SettledByState(lvs: Lvs)
    requires Single(lvs)
    ensures EndsByState(lvs, Settled(lvs))
  {
    hide Settled, Outcome;
    forall n | n in lvs ensures Outcome(lvs, n, Settled(lvs)) {
      SettledOutcome(lvs, n);
    }
    forall m | m in Settled(lvs) ensures m in lvs || exists n :: Replaces(lvs, n, m) {
      SettledComesFrom(lvs, m);
    }
  }

  lemma SettledComesFrom(lvs: Lvs, m: string)
    requires m in Settled(lvs)
    ensures m in lvs || exists n :: Replaces(lvs, n, m)
  {
    var n := Source(lvs, m);
    assert Comes(lvs, n, m);
    NamesAgree(lvs, n);
    assert m in lvs || Replaces(lvs, n, m);
  }

  // However often recovery is cut: once it completes, every volume of a clean node is gone, in its
  // place or under its target's name as its state asks for. An attached volume has its device again.
  lemma RecoveryByState(lvs: Lvs, history: seq<Attempt>)
    requires Clean(lvs) && Fits(lvs, history) && Recovered(lvs, history)
    ensures EndsByState(lvs, After(lvs, history))
  {
    hide Settled, Outcome, CopiesSettle, LineageSettles, Fits, Recovered, After, AllDone;
    RecoverConverges(lvs, history);
    SettledByState(lvs);
  }

  // -------------------------------------------------------------------- any node, clean or not

  lemma OneMore(base: Lvs, todo: seq<Command>, k: nat)
    requires k < |todo|
    ensures ApplyAll(base, todo[..k + 1]) == Apply(ApplyAll(base, todo[..k]), todo[k])
  {
    assert todo[..k + 1][..k] == todo[..k];
  }

  // The record is as scanned, up to lvm's origin field.
  ghost predicate Unmoved(scan: Lvs, now: Lvs, n: string) {
    n in scan && n in now && now[n] == scan[n].(lvmOrigin := now[n].lvmOrigin)
  }

  predicate Touches(c: Command, n: string) {
    c.name == n || (c.Rename? && c.newName == n)
  }

  lemma ApplyLocal(lvs: Lvs, c: Command, m: string)
    requires m in lvs && !Touches(c, m)
    ensures m in Apply(lvs, c) && Apply(lvs, c)[m] == lvs[m].(lvmOrigin := Apply(lvs, c)[m].lvmOrigin)
  {
  }

  // Commands on one scanned volume leave the other scanned volumes alone.
  lemma {:induction false} ActionsLocal(scan: Lvs, base: Lvs, n: string, k: nat, m: string)
    requires Owned(scan, n) && k <= |Actions(scan, n)| && m != n && m in scan && m in base
    ensures Unmoved(base, ApplyAll(base, Actions(scan, n)[..k]), m)
  {
    if k > 0 {
      ActionsLocal(scan, base, n, k - 1, m);
      OneMore(base, Actions(scan, n), k - 1);
      assert !Touches(Actions(scan, n)[k - 1], m);
      ApplyLocal(ApplyAll(base, Actions(scan, n)[..k - 1]), Actions(scan, n)[k - 1], m);
    } else {
      assert Actions(scan, n)[..0] == [];
    }
  }

  // What holds of a volume with a user's data wherever recovery is cut: name, state, bytes and tags
  // stay, the device goes up for an attached volume only, and is up once its command ran.
  predicate DataStays(before: LV, now: LV, complete: bool) {
    && now == before.(active := now.active, lvmOrigin := now.lvmOrigin)
    && (before.active ==> now.active)
    && (now.active ==> before.active || (before.state == Attached && !before.skip))
    && (complete && before.state == Attached && !before.skip ==> now.active)
  }

  predicate HasData(lvs: Lvs, n: string) {
    n in lvs && lvs[n].state in {Ready, Attached, Committing, Retired}
  }

  ghost predicate DataKept(lvs: Lvs, r: Lvs, complete: bool) {
    forall n :: HasData(lvs, n) ==> n in r && DataStays(lvs[n], r[n], complete)
  }

  lemma NothingLost(lvs: Lvs)
    ensures DataKept(lvs, lvs, false)
  {
  }

  lemma {:induction false} PassKeepsData(lvs: Lvs, order: seq<string>, cuts: seq<nat>, n: string)
    requires Listed(lvs, order) && |cuts| == |order| && HasData(lvs, n)
    ensures var r := Pass(lvs, order, cuts);
            n in r && DataStays(lvs[n], r[n], n in order && Complete(lvs, order, cuts))
    ensures n !in order ==> Unmoved(lvs, Pass(lvs, order, cuts), n)
  {
    hide Actions, Apply;
    if order != [] {
      var last := |order| - 1;
      var k, before := order[last], Pass(lvs, order[..last], cuts[..last]);
      var todo := Actions(lvs, k);
      var j := if cuts[last] < |todo| then cuts[last] else |todo|;
      PassKeepsData(lvs, order[..last], cuts[..last], n);
      assert Owned(lvs, k) && k !in order[..last];
      if k != n {
        ActionsLocal(lvs, before, k, j, n);
      } else {
        OwnCommand(lvs, before, n, j);
      }
    }
  }

  // The one command a volume with data may get is its activation.
  lemma OwnCommand(lvs: Lvs, base: Lvs, n: string, j: nat)
    requires HasData(lvs, n) && Unmoved(lvs, base, n) && j <= |Actions(lvs, n)|
    ensures var r := ApplyAll(base, Actions(lvs, n)[..j]);
            n in r && DataStays(lvs[n], r[n], j == |Actions(lvs, n)|)
  {
    var todo := Actions(lvs, n);
    assert todo[..0] == [];
    if j > 0 {
      OneMore(base, todo, 0);
    }
  }

  // However often recovery is cut, on whatever node: no volume with a user's data is lost or
  // changed, and a completed recovery gives every attached one its device back.
  lemma {:induction false} RecoveryKeepsData(lvs: Lvs, history: seq<Attempt>)
    requires Fits(lvs, history)
    ensures DataKept(lvs, After(lvs, history), Recovered(lvs, history))
    decreases |history|
  {
    hide Pass, Complete, Listed;
    if history != [] {
      var first := history[0];
      forall n | HasData(lvs, n)
        ensures n in Pass(lvs, first.order, first.cuts)
        ensures DataStays(lvs[n], Pass(lvs, first.order, first.cuts)[n], Complete(lvs, first.order, first.cuts))
      {
        PassKeepsData(lvs, first.order, first.cuts, n);
      }
      RecoveryKeepsData(Pass(lvs, first.order, first.cuts), history[1..]);
    }
  }
}
