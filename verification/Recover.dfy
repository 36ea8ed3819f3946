/** Crash recovery from the tags (internal/storage/recover.go).

    A pass scans the node once and then works through the volumes in scan order. It may end early
    anywhere: by a crash between two lvm commands, or for a single volume by a failed command. The
    next start scans again. The main result says when all of this reaches one state, whatever the
    order and however often it is interrupted.
  */
module Recover {
  import opened Lvm

  datatype Fate = Stays | Goes | Moves(newName: string)

  predicate Owned(lvs: Lvs, n: string) {
    n in lvs && lvs[n].state != Foreign
  }

  // What recovery does with the name of a volume. Rule order matters: a copy already under its
  // target's name only needs the retag, a copy whose target still exists aborts, else it finishes.
  function FateOf(lvs: Lvs, n: string): Fate
    requires n in lvs
  {
    var lv := lvs[n];
    match lv.state
    case Creating => Goes
    case Deleting => Goes
    case Incoming => Goes
    case Rollback =>
      var x := lv.rollbackTarget;
      if x == "" || x == n then Stays
      else if Owned(lvs, x) then Goes
      else if x in lvs then Stays   // a foreign lv holds the name, the rename is refused
      else Moves(x)
    case _ => Stays
  }

  // The commands recovery issues for one scanned volume, in order.
  function Actions(lvs: Lvs, n: string): seq<Command>
    requires n in lvs
  {
    var lv := lvs[n];
    match FateOf(lvs, n)
    case Goes => [Remove(n)]
    case Moves(x) => [Rename(n, x), Change(x, EndRollback)]
    case Stays =>
      match lv.state
      case Attached => [Activate(n, false)]
      case Snapshot =>
        if lv.origin == "" && lv.lvmOrigin != "" then
          if lv.active then [Change(n, TagOrigin(lv.lvmOrigin)), Deactivate(n)]
          else [Change(n, TagOrigin(lv.lvmOrigin))]
        else if lv.active then [Deactivate(n)]
        else []
      case Pushing =>
        if lv.active then [Deactivate(n), Change(n, EndPush(Ready))] else [Change(n, EndPush(Ready))]
      case Rollback => if lv.rollbackTarget == n && n != "" then [Change(n, EndRollback)] else []
      case _ => []
  }

  // ----------------------------------------------------------------------------- passes

  // Distinct owned volumes.
  ghost predicate Listed(lvs: Lvs, order: seq<string>) {
    order == [] ||
    var last := |order| - 1;
    Owned(lvs, order[last]) && order[last] !in order[..last] && Listed(lvs, order[..last])
  }

  lemma {:induction false} ListedOnce(scan: Lvs, order: seq<string>, i: nat)
    requires Listed(scan, order) && i < |order|
    ensures Owned(scan, order[i]) && order[i] !in order[..i]
    decreases |order|
  {
    var last := |order| - 1;
    if i < last {
      ListedOnce(scan, order[..last], i);
      assert order[..last][..i] == order[..i];
    }
  }

  // A scan lists every owned volume.
  ghost predicate IsScan(lvs: Lvs, order: seq<string>) {
    Listed(lvs, order) && forall n :: Owned(lvs, n) ==> n in order
  }

  // The state after a pass over the scan that got cuts[i] commands far on volume order[i].
  ghost function Pass(lvs: Lvs, order: seq<string>, cuts: seq<nat>): Lvs
    requires |cuts| == |order| && Listed(lvs, order)
  {
    if order == [] then lvs
    else
      var last := |order| - 1;
      var todo := Actions(lvs, order[last]);
      ApplyAll(Pass(lvs, order[..last], cuts[..last]), todo[..if cuts[last] < |todo| then cuts[last] else |todo|])
  }

  // Every command of every volume ran.
  ghost predicate Complete(lvs: Lvs, order: seq<string>, cuts: seq<nat>)
    requires |cuts| == |order| && Listed(lvs, order)
  {
    order == [] ||
    var last := |order| - 1;
    cuts[last] >= |Actions(lvs, order[last])| && Complete(lvs, order[..last], cuts[..last])
  }

  datatype Attempt = Attempt(order: seq<string>, cuts: seq<nat>)

  // A history of passes, each starting from a fresh scan of what the one before left.
  ghost predicate Fits(lvs: Lvs, history: seq<Attempt>)
    decreases |history|
  {
    history == [] ||
    (&& IsScan(lvs, history[0].order)
     && |history[0].cuts| == |history[0].order|
     && Fits(Pass(lvs, history[0].order, history[0].cuts), history[1..]))
  }

  ghost function After(lvs: Lvs, history: seq<Attempt>): Lvs
    requires Fits(lvs, history)
    decreases |history|
  {
    if history == [] then lvs else After(Pass(lvs, history[0].order, history[0].cuts), history[1..])
  }

  // The history ends with a pass that ran to completion.
  ghost predicate Recovered(lvs: Lvs, history: seq<Attempt>)
    requires Fits(lvs, history)
    decreases |history|
  {
    history != [] &&
    if |history| == 1 then Complete(lvs, history[0].order, history[0].cuts)
    else Recovered(Pass(lvs, history[0].order, history[0].cuts), history[1..])
  }

  // -------------------------------------------------------------------- the state to reach

  // The name a volume ends up under, empty for none.
  ghost function NewName(lvs: Lvs, n: string): string {
    if n !in lvs then n
    else match FateOf(lvs, n)
      case Stays => n
      case Goes => ""
      case Moves(x) => x
  }

  // A volume that settles under the given name, with its lvm origin's new name.
  ghost function SettledAs(lv: LV, n: string, lvmOrigin: string): LV {
    var settled := match lv.state
      case Attached => Activated(lv, false)
      case Snapshot => lv.(origin := Lineage(lv), active := false)
      case Pushing => Edited(lv.(active := false), EndPush(Ready))
      case Rollback => if lv.rollbackTarget == n && n != "" then Edited(lv, EndRollback) else lv
      case _ => lv;
    settled.(lvmOrigin := lvmOrigin)
  }

  ghost function SettledLv(lvs: Lvs, k: string): LV
    requires k in lvs
  {
    SettledAs(lvs[k], NewName(lvs, k), NewName(lvs, lvs[k].lvmOrigin))
  }

  // Volume k of the node settles under name m.
  ghost predicate Comes(lvs: Lvs, k: string, m: string) {
    k in lvs && !FateOf(lvs, k).Goes? && NewName(lvs, k) == m
  }

  ghost function Survivors(lvs: Lvs): set<string> {
    set k | k in lvs && !FateOf(lvs, k).Goes? :: NewName(lvs, k)
  }

  ghost function Source(lvs: Lvs, m: string): (k: string)
    requires m in Survivors(lvs)
    ensures Comes(lvs, k, m)
  {
    var k :| k in lvs && !FateOf(lvs, k).Goes? && NewName(lvs, k) == m;
    k
  }

  ghost function Settled(lvs: Lvs): Lvs {
    map m | m in Survivors(lvs) :: SettledLv(lvs, Source(lvs, m))
  }

  // ------------------------------------------------------------------------ the condition

  // A copy that is not yet under its target's name.
  ghost predicate Waits(lvs: Lvs, n: string) {
    n in lvs && lvs[n].state == Rollback && lvs[n].rollbackTarget !in {"", n}
  }

  // At most one copy waits for a name.
  ghost predicate Single(lvs: Lvs) {
    && "" !in lvs
    && forall a, b :: Waits(lvs, a) && Waits(lvs, b) && lvs[a].rollbackTarget == lvs[b].rollbackTarget ==> a == b
  }

  // No copy waits for a name that recovery itself takes away.
  ghost predicate CopiesSettle(lvs: Lvs) {
    forall n :: Waits(lvs, n) && Owned(lvs, lvs[n].rollbackTarget) ==> FateOf(lvs, lvs[n].rollbackTarget).Stays?
  }

  // No snapshot older than the lineage tag hangs on an lv that recovery takes away.
  ghost predicate LineageSettles(lvs: Lvs) {
    forall n :: n in lvs && lvs[n].state == Snapshot && lvs[n].origin == "" && lvs[n].lvmOrigin in lvs
      ==> FateOf(lvs, lvs[n].lvmOrigin).Stays?
  }

  ghost predicate Clean(lvs: Lvs) {
    Single(lvs) && CopiesSettle(lvs) && LineageSettles(lvs)
  }

  // The daemon names a copy after its target, so at most one waits for each.
  lemma NamedSingle(lvs: Lvs)
    requires "" !in lvs
    requires forall n :: Waits(lvs, n) ==> n == RollbackTempName(lvs[n].rollbackTarget)
    ensures Single(lvs)
  {
  }

  // ------------------------------------------------------------------- settling is a function

  lemma ComesUnique(lvs: Lvs, k: string, m: string)
    requires Single(lvs) && Comes(lvs, k, m)
    ensures m in Survivors(lvs) && Source(lvs, m) == k
  {
    var j := Source(lvs, m);
    assert Comes(lvs, j, m);
    if FateOf(lvs, k).Moves? {
      assert Waits(lvs, k);
      if FateOf(lvs, j).Moves? {
        assert Waits(lvs, j);
      }
    }
  }

  // What a volume in its place, or a copy that moves, settles to.
  lemma SettledFrom(lvs: Lvs, k: string, m: string)
    requires Single(lvs) && Comes(lvs, k, m)
    ensures m in Settled(lvs) && Settled(lvs)[m] == SettledLv(lvs, k)
  {
    ComesUnique(lvs, k, m);
  }

  // One survivor of a state is also one of another, with the same record.
  ghost predicate Matches(lvs: Lvs, after: Lvs, k: string, k': string) {
    && k in lvs && k' in after
    && !FateOf(lvs, k).Goes? && !FateOf(after, k').Goes?
    && NewName(after, k') == NewName(lvs, k)
    && SettledLv(after, k') == SettledLv(lvs, k)
  }

  // A survivor both states agree on.
  ghost predicate Agree(lvs: Lvs, after: Lvs, m: string) {
    && m in Survivors(lvs) && m in Survivors(after)
    && SettledLv(after, Source(after, m)) == SettledLv(lvs, Source(lvs, m))
  }

  lemma MatchAgrees(lvs: Lvs, after: Lvs, k: string, k': string)
    requires Single(lvs) && Single(after) && Matches(lvs, after, k, k')
    ensures Agree(lvs, after, NewName(lvs, k))
  {
    ComesUnique(lvs, k, NewName(lvs, k));
    ComesUnique(after, k', NewName(lvs, k));
  }

  lemma AgreeSettled(lvs: Lvs, after: Lvs)
    requires forall m :: m in Survivors(lvs) || m in Survivors(after) ==> Agree(lvs, after, m)
    ensures Settled(after) == Settled(lvs)
  {
    assert Survivors(after) == Survivors(lvs);
  }

  lemma SameMatches(lvs: Lvs, after: Lvs, k: string)
    requires Same(lvs, after, k) && !FateOf(lvs, k).Goes?
    requires NewName(after, after[k].lvmOrigin) == NewName(lvs, lvs[k].lvmOrigin)
    ensures Matches(lvs, after, k, k)
  {
  }

  // A volume other than n, kept by a step from one state to the next.
  ghost predicate Kept(lvs: Lvs, after: Lvs, m: string) {
    Same(lvs, after, m) && NewName(after, after[m].lvmOrigin) == NewName(lvs, lvs[m].lvmOrigin)
  }

  // A step that moves one volume and keeps the others, with matching survivors, settles alike.
  lemma SettledSame(lvs: Lvs, after: Lvs, n: string, x: string)
    requires Single(lvs) && Single(after) && n in lvs
    requires forall m :: m in lvs && m != n ==> Kept(lvs, after, m)
    requires forall m :: m in after ==> (m in lvs && m != n) || m == x
    requires if FateOf(lvs, n).Goes? then x !in after else Matches(lvs, after, n, x)
    ensures Settled(after) == Settled(lvs)
  {
    forall m | m in Survivors(lvs) || m in Survivors(after) ensures Agree(lvs, after, m) {
      var k := if m in Survivors(lvs) then Source(lvs, m) else Source(after, m);
      if k in lvs && k != n {
        assert Kept(lvs, after, k);
        SameMatches(lvs, after, k);
        MatchAgrees(lvs, after, k, k);
      } else {
        MatchAgrees(lvs, after, n, x);
      }
    }
    AgreeSettled(lvs, after);
  }

  // ------------------------------------------------------------------- one volume's commands

  // Recovery has nothing left to change on the volume.
  ghost predicate Done(lvs: Lvs, n: string) {
    n in lvs ==> Actions(lvs, n) == [] || (lvs[n].state == Attached && Activated(lvs[n], false) == lvs[n])
  }

  // The commands of one volume leave every other one with the commands it had.
  ghost predicate Apart(lvs: Lvs, after: Lvs, n: string) {
    forall m :: m in lvs && m != n ==>
      && m in after
      && (Owned(after, m) <==> Owned(lvs, m))
      && Actions(after, m) == Actions(lvs, m)
      && (Done(lvs, m) ==> Done(after, m))
  }

  // What a partial run of one volume's commands must keep.
  ghost predicate Progress(lvs: Lvs, after: Lvs, n: string) {
    Clean(after) && Settled(after) == Settled(lvs) && Apart(lvs, after, n)
  }

  // Recovery sees the same volume, up to an lvm origin it does not consult.
  ghost predicate Alike(a: LV, b: LV) {
    && a == b.(lvmOrigin := a.lvmOrigin)
    && (a.state == Snapshot && a.origin == "" ==> a.lvmOrigin == b.lvmOrigin)
  }

  ghost predicate Same(lvs: Lvs, after: Lvs, m: string) {
    m in lvs && m in after && FateOf(after, m) == FateOf(lvs, m) && Alike(lvs[m], after[m])
  }

  lemma SameActions(lvs: Lvs, after: Lvs, m: string)
    requires Same(lvs, after, m)
    ensures Actions(after, m) == Actions(lvs, m) && (Done(lvs, m) ==> Done(after, m))
  {
  }

  lemma SameApart(lvs: Lvs, after: Lvs, n: string)
    requires forall m :: m in lvs && m != n ==> Same(lvs, after, m)
    ensures Apart(lvs, after, n)
  {
    forall m | m in lvs && m != n ensures Actions(after, m) == Actions(lvs, m) && (Done(lvs, m) ==> Done(after, m)) {
      SameActions(lvs, after, m);
    }
  }

  // A step that keeps all volumes but one the same, and moves that one, keeps the state clean.
  lemma SameClean(lvs: Lvs, after: Lvs, n: string, x: string)
    requires Clean(lvs) && "" !in after
    requires forall m :: m in lvs && m != n ==> Same(lvs, after, m)
    requires forall m :: m in after ==> (m in lvs && m != n) || m == x
    requires x in after ==> after[x].state != Foreign && FateOf(after, x).Stays? && !Waits(after, x)
    requires x in after && after[x].state == Snapshot && after[x].origin == "" && after[x].lvmOrigin in after ==>
               FateOf(after, after[x].lvmOrigin).Stays?
    ensures Clean(after)
  {
    forall m | Waits(after, m) ensures m != x && Same(lvs, after, m) && Waits(lvs, m) {
    }
    forall m | Waits(after, m) && Owned(after, after[m].rollbackTarget)
      ensures FateOf(after, after[m].rollbackTarget).Stays?
    {
      var t := after[m].rollbackTarget;
      if t != x {
        assert Same(lvs, after, t);
      }
    }
    forall m | m in after && after[m].state == Snapshot && after[m].origin == "" && after[m].lvmOrigin in after
      ensures FateOf(after, after[m].lvmOrigin).Stays?
    {
      var o := after[m].lvmOrigin;
      if m != x && o != x {
        assert Same(lvs, after, m) && Same(lvs, after, o);
      }
    }
  }

  // ------------------------------------------------------------------- in place, removal, rename

  // Edits that keep the volume in place: its name, its lvm origin and where it is headed.
  ghost predicate InPlace(lvs: Lvs, n: string, lv: LV) {
    && Owned(lvs, n) && FateOf(lvs, n).Stays?
    && lv.state !in {Foreign, Creating, Deleting, Incoming}
    && lv.lvmOrigin == lvs[n].lvmOrigin
    && (lv.state == Rollback ==> lvs[n].state == Rollback && lv.rollbackTarget == lvs[n].rollbackTarget)
    && (lv.state == Snapshot ==> lvs[n].state == Snapshot && (lvs[n].origin != "" ==> lv.origin != ""))
    && (lvs[n].state == Rollback ==> lvs[n].rollbackTarget == n)
  }

  lemma InPlaceKept(lvs: Lvs, n: string, lv: LV, m: string)
    requires InPlace(lvs, n, lv) && m in lvs
    ensures FateOf(lvs[n := lv], m) == FateOf(lvs, m)
    ensures m != n ==> Same(lvs, lvs[n := lv], m)
  {
  }

  lemma InPlaceProgress(lvs: Lvs, n: string, lv: LV)
    requires Clean(lvs) && InPlace(lvs, n, lv)
    requires SettledAs(lv, n, lv.lvmOrigin) == SettledAs(lvs[n], n, lv.lvmOrigin)
    ensures Progress(lvs, lvs[n := lv], n)
  {
    hide Settled, Matches, SettledAs, Apart;
    var after := lvs[n := lv];
    forall m | m in lvs ensures FateOf(after, m) == FateOf(lvs, m) && (m != n ==> Same(lvs, after, m)) {
      InPlaceKept(lvs, n, lv, m);
    }
    SameApart(lvs, after, n);
    SameClean(lvs, after, n, n);
    forall m | m in lvs && m != n ensures Kept(lvs, after, m) {
    }
    InPlaceMatches(lvs, n, lv);
    SettledSame(lvs, after, n, n);
  }

  lemma InPlaceMatches(lvs: Lvs, n: string, lv: LV)
    requires InPlace(lvs, n, lv)
    requires SettledAs(lv, n, lv.lvmOrigin) == SettledAs(lvs[n], n, lv.lvmOrigin)
    ensures Matches(lvs, lvs[n := lv], n, n)
  {
    InPlaceKept(lvs, n, lv, n);
    if lv.lvmOrigin in lvs {
      InPlaceKept(lvs, n, lv, lv.lvmOrigin);
    }
  }

  // What is removed was nobody's target.
  lemma RemovedIsNoTarget(lvs: Lvs, n: string, m: string)
    requires CopiesSettle(lvs) && n in lvs && FateOf(lvs, n).Goes?
    ensures Waits(lvs, m) ==> lvs[m].rollbackTarget != n
  {
  }

  lemma RemoveSame(lvs: Lvs, n: string, m: string)
    requires Clean(lvs) && n in lvs && FateOf(lvs, n).Goes?
    requires m in lvs && m != n
    ensures Same(lvs, Removed(lvs, n), m)
  {
    hide Single, CopiesSettle;
    RemovedIsNoTarget(lvs, n, m);
  }

  lemma RemoveProgress(lvs: Lvs, n: string)
    requires Clean(lvs) && n in lvs && FateOf(lvs, n).Goes?
    ensures Progress(lvs, Removed(lvs, n), n)
  {
    hide Settled, Apart;
    var after := Removed(lvs, n);
    forall m | m in lvs && m != n ensures Same(lvs, after, m) {
      RemoveSame(lvs, n, m);
    }
    SameApart(lvs, after, n);
    SameClean(lvs, after, n, n);
    forall m | m in lvs && m != n ensures Kept(lvs, after, m) {
      var o := lvs[m].lvmOrigin;
      assert o in lvs && o != n ==> Same(lvs, after, o);
    }
    SettledSame(lvs, after, n, n);
  }

  lemma RenameSame(lvs: Lvs, n: string, m: string)
    requires Clean(lvs) && n in lvs && FateOf(lvs, n).Moves?
    requires m in lvs && m != n
    ensures Same(lvs, Renamed(lvs, n, lvs[n].rollbackTarget), m)
  {
    hide Single, CopiesSettle;
    var x := lvs[n].rollbackTarget;
    MovedIsNoTarget(lvs, n, m);
    assert x !in lvs && x != "";
    RenameKeepsFate(lvs, n, x, m);
  }

  // Only copies look at other names, and none at the two a rename is about.
  lemma RenameKeepsFate(lvs: Lvs, n: string, x: string, m: string)
    requires n in lvs && x !in lvs && m in lvs && m != n
    requires Waits(lvs, m) ==> lvs[m].rollbackTarget != n && lvs[m].rollbackTarget != x
    ensures m in Renamed(lvs, n, x) && FateOf(Renamed(lvs, n, x), m) == FateOf(lvs, m)
  {
  }

  lemma MovedIsNoTarget(lvs: Lvs, n: string, m: string)
    requires Single(lvs) && CopiesSettle(lvs) && n in lvs && FateOf(lvs, n).Moves? && m != n
    ensures Waits(lvs, m) ==> lvs[m].rollbackTarget != n && lvs[m].rollbackTarget != lvs[n].rollbackTarget
  {
    assert Waits(lvs, n);
  }

  lemma RenameProgress(lvs: Lvs, n: string)
    requires Clean(lvs) && n in lvs && FateOf(lvs, n).Moves?
    ensures Progress(lvs, Renamed(lvs, n, lvs[n].rollbackTarget), n)
  {
    hide Settled, Matches, Apart, FateOf, Same, Kept, Waits;
    RenamedCopy(lvs, n);
    var x := lvs[n].rollbackTarget;
    var after := Renamed(lvs, n, x);
    forall m | m in lvs && m != n ensures Same(lvs, after, m) {
      RenameSame(lvs, n, m);
    }
    SameApart(lvs, after, n);
    SameClean(lvs, after, n, x);
    forall m | m in lvs && m != n ensures Kept(lvs, after, m) {
      RenameKept(lvs, n, m);
    }
    RenameMatches(lvs, n);
    SettledSame(lvs, after, n, x);
  }

  // The copy under its target's name.
  lemma RenamedCopy(lvs: Lvs, n: string)
    requires n in lvs && FateOf(lvs, n).Moves?
    ensures var x, after := lvs[n].rollbackTarget, Renamed(lvs, n, lvs[n].rollbackTarget);
            && x !in lvs && x != "" && x in after && after[x].state == Rollback
            && FateOf(after, x).Stays? && !Waits(after, x)
            && forall m :: m in after ==> (m in lvs && m != n) || m == x
  {
  }

  lemma RenameKept(lvs: Lvs, n: string, m: string)
    requires n in lvs && FateOf(lvs, n).Moves? && m in lvs && m != n
    requires forall k :: k in lvs && k != n ==> Same(lvs, Renamed(lvs, n, lvs[n].rollbackTarget), k)
    ensures Kept(lvs, Renamed(lvs, n, lvs[n].rollbackTarget), m)
  {
    var o := lvs[m].lvmOrigin;
    assert o in lvs && o != n ==> Same(lvs, Renamed(lvs, n, lvs[n].rollbackTarget), o);
  }

  lemma RenameMatches(lvs: Lvs, n: string)
    requires Clean(lvs) && n in lvs && FateOf(lvs, n).Moves?
    requires forall m :: m in lvs && m != n ==> Same(lvs, Renamed(lvs, n, lvs[n].rollbackTarget), m)
    ensures Matches(lvs, Renamed(lvs, n, lvs[n].rollbackTarget), n, lvs[n].rollbackTarget)
  {
    var x := lvs[n].rollbackTarget;
    var after := Renamed(lvs, n, x);
    var o := lvs[n].lvmOrigin;
    assert o in lvs && o != n ==> Same(lvs, after, o);
  }

  lemma ProgressTwice(lvs: Lvs, mid: Lvs, after: Lvs, n: string, x: string)
    requires Progress(lvs, mid, n) && Progress(mid, after, x)
    requires x == n || x !in lvs
    ensures Progress(lvs, after, n)
  {
  }

  lemma ApplyTwo(lvs: Lvs, c: Command, d: Command)
    ensures ApplyAll(lvs, [c]) == Apply(lvs, c)
    ensures ApplyAll(lvs, [c, d]) == Apply(Apply(lvs, c), d)
  {
    assert [c, d][..1] == [c];
    assert [c][..0] == [];
  }

  // The state after the first k commands of one volume.
  ghost function Partly(lvs: Lvs, n: string, k: nat): Lvs
    requires n in lvs
  {
    var todo := Actions(lvs, n);
    ApplyAll(lvs, todo[..if k < |todo| then k else |todo|])
  }

  lemma RemovingProgress(lvs: Lvs, n: string)
    requires Clean(lvs) && Owned(lvs, n) && FateOf(lvs, n).Goes?
    ensures Progress(lvs, Partly(lvs, n, 1), n)
    ensures forall m :: m in Partly(lvs, n, 1) ==> m in lvs && m != n
  {
    hide Clean, Settled, Apart;
    RemoveProgress(lvs, n);
    PartlyFirst(lvs, n);
  }

  lemma RenamingFirst(lvs: Lvs, n: string)
    requires Clean(lvs) && Owned(lvs, n) && FateOf(lvs, n).Moves?
    ensures Partly(lvs, n, 1) == Renamed(lvs, n, lvs[n].rollbackTarget)
    ensures Progress(lvs, Partly(lvs, n, 1), n)
  {
    hide Clean, Settled, Apart;
    var x := lvs[n].rollbackTarget;
    RenameProgress(lvs, n);
    PartlyFirst(lvs, n);
  }

  lemma RenamingBoth(lvs: Lvs, n: string)
    requires Clean(lvs) && Owned(lvs, n) && FateOf(lvs, n).Moves?
    ensures var x, after := lvs[n].rollbackTarget, Partly(lvs, n, 2);
            && Progress(lvs, after, n)
            && Done(after, x)
            && forall m :: m in after ==> m == x || (m in lvs && m != n)
  {
    hide Clean, Settled, Apart;
    var x := lvs[n].rollbackTarget;
    var mid := Renamed(lvs, n, x);
    RenamingFirst(lvs, n);
    var lv := Edited(mid[x], EndRollback);
    InPlaceProgress(mid, x, lv);
    ProgressTwice(lvs, mid, mid[x := lv], n, x);
    PartlyBoth(lvs, n);
  }

  // One command that edits a staying volume in place.
  lemma EditProgress(lvs: Lvs, n: string, c: Command, lv: LV)
    requires Clean(lvs) && InPlace(lvs, n, lv) && Apply(lvs, c) == lvs[n := lv]
    requires SettledAs(lv, n, lv.lvmOrigin) == SettledAs(lvs[n], n, lv.lvmOrigin)
    ensures Progress(lvs, Apply(lvs, c), n)
  {
    hide Clean, Settled, Apart;
    InPlaceProgress(lvs, n, lv);
  }

  lemma EditTwice(lvs: Lvs, n: string, c: Command, d: Command, mid: LV, lv: LV)
    requires Clean(lvs) && InPlace(lvs, n, mid) && Apply(lvs, c) == lvs[n := mid]
    requires InPlace(lvs[n := mid], n, lv) && Apply(lvs[n := mid], d) == lvs[n := lv]
    requires SettledAs(mid, n, mid.lvmOrigin) == SettledAs(lvs[n], n, mid.lvmOrigin)
    requires SettledAs(lv, n, lv.lvmOrigin) == SettledAs(mid, n, lv.lvmOrigin)
    ensures Progress(lvs, lvs[n := mid], n) && Progress(lvs, lvs[n := lv], n)
  {
    hide Clean, Settled, Apart, InPlace, SettledAs, Apply;
    InPlaceProgress(lvs, n, mid);
    InPlaceProgress(lvs[n := mid], n, lv);
    assert lvs[n := mid][n := lv] == lvs[n := lv];
    ProgressTwice(lvs, lvs[n := mid], lvs[n := lv], n, n);
  }

  lemma PartlyFirst(lvs: Lvs, n: string)
    requires n in lvs && Actions(lvs, n) != []
    ensures Partly(lvs, n, 1) == Apply(lvs, Actions(lvs, n)[0])
  {
    var todo := Actions(lvs, n);
    assert todo[..1] == [todo[0]];
    ApplyTwo(lvs, todo[0], todo[0]);
  }

  lemma PartlyBoth(lvs: Lvs, n: string)
    requires n in lvs && |Actions(lvs, n)| == 2
    ensures Partly(lvs, n, 2) == Apply(Apply(lvs, Actions(lvs, n)[0]), Actions(lvs, n)[1])
  {
    var todo := Actions(lvs, n);
    assert todo[..2] == [todo[0], todo[1]];
    ApplyTwo(lvs, todo[0], todo[1]);
  }

  lemma StayingSnapshot(lvs: Lvs, n: string, k: nat)
    requires Clean(lvs) && n in lvs && lvs[n].state == Snapshot && 0 < k <= |Actions(lvs, n)|
    ensures Progress(lvs, Partly(lvs, n, k), n) && Partly(lvs, n, k).Keys == lvs.Keys
    ensures k == |Actions(lvs, n)| ==> Done(Partly(lvs, n, k), n)
  {
    hide Clean, Settled, Apart, Partly;
    var todo, lv := Actions(lvs, n), lvs[n];
    var tagged, idle := lv.(origin := Lineage(lv)), lv.(origin := Lineage(lv), active := false);
    PartlyFirst(lvs, n);
    if |todo| == 2 {
      PartlyBoth(lvs, n);
      EditTwice(lvs, n, todo[0], todo[1], tagged, idle);
    } else {
      EditProgress(lvs, n, todo[0], idle);
    }
  }

  lemma StayingPushing(lvs: Lvs, n: string, k: nat)
    requires Clean(lvs) && n in lvs && lvs[n].state == Pushing && 0 < k <= |Actions(lvs, n)|
    ensures Progress(lvs, Partly(lvs, n, k), n) && Partly(lvs, n, k).Keys == lvs.Keys
    ensures k == |Actions(lvs, n)| ==> Done(Partly(lvs, n, k), n)
  {
    hide Clean, Settled, Apart, Partly;
    var todo, lv := Actions(lvs, n), lvs[n];
    var idle, ready := lv.(active := false), Edited(lv.(active := false), EndPush(Ready));
    PartlyFirst(lvs, n);
    if |todo| == 2 {
      PartlyBoth(lvs, n);
      EditTwice(lvs, n, todo[0], todo[1], idle, ready);
    } else {
      EditProgress(lvs, n, todo[0], ready);
    }
  }

  lemma StayingOther(lvs: Lvs, n: string)
    requires Clean(lvs) && Owned(lvs, n) && FateOf(lvs, n).Stays?
    requires lvs[n].state == Attached || lvs[n].state == Rollback
    requires |Actions(lvs, n)| == 1
    ensures Progress(lvs, Partly(lvs, n, 1), n) && Partly(lvs, n, 1).Keys == lvs.Keys
    ensures Done(Partly(lvs, n, 1), n)
  {
    hide Clean, Settled, Apart;
    var todo, lv := Actions(lvs, n), lvs[n];
    PartlyFirst(lvs, n);
    EditProgress(lvs, n, todo[0], if lv.state == Attached then Activated(lv, false) else Edited(lv, EndRollback));
  }

  lemma ApartFromNothing(lvs: Lvs, n: string)
    ensures Apart(lvs, lvs, n)
  {
  }

  // However far recovery gets with a volume, the node still settles to the same state, and no
  // other volume is treated differently for it.
  lemma VolumeProgress(lvs: Lvs, n: string, k: nat)
    requires Clean(lvs) && Owned(lvs, n)
    ensures Progress(lvs, Partly(lvs, n, k), n)
    ensures k >= |Actions(lvs, n)| ==>
              forall m :: m in Partly(lvs, n, k) && (m == n || m !in lvs) ==> Done(Partly(lvs, n, k), m)
  {
    hide Clean, Settled, Apart;
    var todo := Actions(lvs, n);
    var j := if k < |todo| then k else |todo|;
    assert Partly(lvs, n, j) == Partly(lvs, n, k);
    if j == 0 {
      assert todo[..0] == [];
      ApartFromNothing(lvs, n);
    } else if FateOf(lvs, n).Goes? {
      RemovingProgress(lvs, n);
    } else if FateOf(lvs, n).Moves? {
      RenamingFirst(lvs, n);
      RenamingBoth(lvs, n);
    } else if lvs[n].state == Snapshot {
      StayingSnapshot(lvs, n, j);
    } else if lvs[n].state == Pushing {
      StayingPushing(lvs, n, j);
    } else {
      StayingOther(lvs, n);
    }
  }

  // ----------------------------------------------------------------------- whole passes

  // A pass over part of the volumes: what it keeps, and what it leaves for the volumes it skips.
  ghost predicate PassKeeps(lvs: Lvs, after: Lvs, order: seq<string>) {
    && Clean(after) && Settled(after) == Settled(lvs)
    && forall m :: m in lvs && m !in order ==>
         && m in after && (Owned(after, m) <==> Owned(lvs, m))
         && Actions(after, m) == Actions(lvs, m) && (Done(lvs, m) ==> Done(after, m))
  }

  // Everything the pass went through, and everything it made, is done.
  ghost predicate PassDone(lvs: Lvs, after: Lvs, order: seq<string>) {
    forall m :: m in after && (m in order || m !in lvs) ==> Done(after, m)
  }

  lemma PassStep(lvs: Lvs, before: Lvs, order: seq<string>, n: string, k: nat)
    requires PassKeeps(lvs, before, order) && Owned(lvs, n) && n !in order
    ensures n in before && Actions(before, n) == Actions(lvs, n)
    ensures PassKeeps(lvs, Partly(before, n, k), order + [n])
    ensures PassDone(lvs, before, order) && k >= |Actions(lvs, n)| ==> PassDone(lvs, Partly(before, n, k), order + [n])
  {
    hide Settled, Clean, Partly;
    VolumeProgress(before, n, k);
    var after := Partly(before, n, k);
    forall m | m in after && (m in order + [n] || m !in lvs) && PassDone(lvs, before, order) && k >= |Actions(lvs, n)|
      ensures Done(after, m)
    {
      if m in before && m != n {
        assert Done(before, m);
      }
    }
  }

  lemma PassOfNothing(lvs: Lvs)
    requires Clean(lvs)
    ensures PassKeeps(lvs, lvs, []) && PassDone(lvs, lvs, [])
  {
  }

  lemma {:induction false} PassProgress(lvs: Lvs, order: seq<string>, cuts: seq<nat>)
    requires Clean(lvs) && |cuts| == |order| && Listed(lvs, order)
    ensures PassKeeps(lvs, Pass(lvs, order, cuts), order)
    ensures Complete(lvs, order, cuts) ==> PassDone(lvs, Pass(lvs, order, cuts), order)
    decreases |order|
  {
    hide PassKeeps, PassDone, Clean;
    if order == [] {
      PassOfNothing(lvs);
    } else {
      var last := |order| - 1;
      var n, before := order[last], Pass(lvs, order[..last], cuts[..last]);
      PassProgress(lvs, order[..last], cuts[..last]);
      PassStep(lvs, before, order[..last], n, cuts[last]);
      assert Pass(lvs, order, cuts) == Partly(before, n, cuts[last]);
      assert order == order[..last] + [n];
    }
  }

  ghost predicate AllDone(lvs: Lvs) {
    forall m :: m in lvs ==> Done(lvs, m)
  }

  // Where nothing is left to do, the node is settled.
  lemma DoneIsSettled(lvs: Lvs)
    requires Clean(lvs) && AllDone(lvs)
    ensures Settled(lvs) == lvs
  {
    forall m | m in lvs ensures FateOf(lvs, m).Stays? && SettledLv(lvs, m) == lvs[m] {
      assert Done(lvs, m);
      var o := lvs[m].lvmOrigin;
      assert o in lvs ==> Done(lvs, o);
    }
    forall m | m in lvs ensures m in Survivors(lvs) && Source(lvs, m) == m {
      assert Comes(lvs, m, m);
      ComesUnique(lvs, m, m);
    }
    forall m | m in Survivors(lvs) ensures m in lvs {
      var k := Source(lvs, m);
    }
  }

  // A pass that runs to the end settles the node, in whatever order it went.
  lemma CompletePassSettles(lvs: Lvs, order: seq<string>, cuts: seq<nat>)
    requires Clean(lvs) && IsScan(lvs, order) && |cuts| == |order| && Complete(lvs, order, cuts)
    ensures Pass(lvs, order, cuts) == Settled(lvs) && AllDone(Settled(lvs))
  {
    hide Settled, Clean, Pass;
    PassProgress(lvs, order, cuts);
    var after := Pass(lvs, order, cuts);
    forall m | m in after ensures Done(after, m) {
      if m in lvs && m !in order {
        assert Done(lvs, m);
      }
    }
    DoneIsSettled(after);
  }

  // Recovery converges: on a clean node any history of interrupted passes, in any scan orders,
  // that ends with a complete one reaches the settled state.
  lemma {:induction false} RecoverConverges(lvs: Lvs, history: seq<Attempt>)
    requires Clean(lvs) && Fits(lvs, history) && Recovered(lvs, history)
    ensures After(lvs, history) == Settled(lvs) && AllDone(Settled(lvs))
    decreases |history|
  {
    hide Settled, Pass, Complete;
    var first := history[0];
    if |history| == 1 {
      CompletePassSettles(lvs, first.order, first.cuts);
      assert history[1..] == [];
    } else {
      PassProgress(lvs, first.order, first.cuts);
      RecoverConverges(Pass(lvs, first.order, first.cuts), history[1..]);
    }
  }

  // A second run, complete or not, changes nothing.
  lemma SecondRunChangesNothing(lvs: Lvs, history: seq<Attempt>, order: seq<string>, cuts: seq<nat>)
    requires Clean(lvs) && Fits(lvs, history) && Recovered(lvs, history)
    requires IsScan(After(lvs, history), order) && |cuts| == |order|
    ensures Pass(After(lvs, history), order, cuts) == After(lvs, history)
  {
    RecoverConverges(lvs, history);
    DoneStays(After(lvs, history), order, cuts);
  }

  lemma {:induction false} DoneStays(lvs: Lvs, order: seq<string>, cuts: seq<nat>)
    requires AllDone(lvs) && |cuts| == |order| && Listed(lvs, order)
    ensures Pass(lvs, order, cuts) == lvs
    decreases |order|
  {
    if order != [] {
      var last := |order| - 1;
      DoneStays(lvs, order[..last], cuts[..last]);
      var n, todo := order[last], Actions(lvs, order[last]);
      assert Done(lvs, n);
      if todo != [] {
        ApplyTwo(lvs, todo[0], todo[0]);
        assert todo[..1] == [todo[0]] && todo[..0] == [];
      } else {
        assert todo[..0] == [];
      }
    }
  }
}
