/** The condition of module Recover is exact: on a node that is not clean, two recoveries of the
    same state, both run to completion, end differently.
  */
module RecoverExact {
  import opened Lvm
  import opened Recover

  // ------------------------------------------------------------ the names a complete pass leaves

  // Some volume of the list moves onto the name.
  ghost predicate MovedTo(lvs: Lvs, order: seq<string>, y: string) {
    exists n :: n in order && n in lvs && FateOf(lvs, n) == Moves(y)
  }

  ghost predicate NameLeft(lvs: Lvs, order: seq<string>, y: string) {
    (y in lvs && (y !in order || FateOf(lvs, y).Stays?)) || MovedTo(lvs, order, y)
  }

  // A volume has at most two commands.
  lemma TwoAtMost(lvs: Lvs, n: string, state: Lvs)
    requires n in lvs
    ensures var todo := Actions(lvs, n);
            && (todo == [] ==> ApplyAll(state, todo) == state)
            && (|todo| == 1 ==> ApplyAll(state, todo) == Apply(state, todo[0]))
            && (|todo| >= 2 ==> |todo| == 2 && ApplyAll(state, todo) == Apply(Apply(state, todo[0]), todo[1]))
  {
    var todo := Actions(lvs, n);
    if todo != [] {
      ApplyTwo(state, todo[0], todo[|todo| - 1]);
      assert |todo| == 1 ==> todo == [todo[0]];
      assert |todo| == 2 ==> todo == [todo[0], todo[1]];
    }
  }

  lemma ApplyKeys(lvs: Lvs, n: string, state: Lvs)
    requires Owned(lvs, n) && n in state
    requires FateOf(lvs, n).Moves? ==> lvs[n].rollbackTarget !in state
    ensures var after := ApplyAll(state, Actions(lvs, n));
            match FateOf(lvs, n)
            case Stays => after.Keys == state.Keys
            case Goes => after.Keys == state.Keys - {n}
            case Moves(z) => after.Keys == state.Keys - {n} + {z}
  {
    TwoAtMost(lvs, n, state);
  }

  lemma MovedToLast(lvs: Lvs, order: seq<string>, n: string, y: string)
    requires n in lvs
    ensures MovedTo(lvs, order + [n], y) <==> MovedTo(lvs, order, y) || FateOf(lvs, n) == Moves(y)
  {
    if FateOf(lvs, n) == Moves(y) {
      assert n in order + [n];
    }
    if MovedTo(lvs, order, y) {
      var m :| m in order && m in lvs && FateOf(lvs, m) == Moves(y);
      assert m in order + [n];
    }
  }

  lemma NamesStep(lvs: Lvs, order: seq<string>, before: Lvs, n: string, y: string)
    requires Owned(lvs, n) && n !in order && n in before
    requires FateOf(lvs, n).Moves? ==> lvs[n].rollbackTarget !in before
    requires y in before <==> NameLeft(lvs, order, y)
    ensures y in ApplyAll(before, Actions(lvs, n)) <==> NameLeft(lvs, order + [n], y)
  {
    ApplyKeys(lvs, n, before);
    MovedToLast(lvs, order, n, y);
  }

  lemma {:induction false} NamesLeft(lvs: Lvs, order: seq<string>, cuts: seq<nat>, y: string)
    requires Single(lvs) && |cuts| == |order| && Listed(lvs, order) && Complete(lvs, order, cuts)
    ensures y in Pass(lvs, order, cuts) <==> NameLeft(lvs, order, y)
    decreases |order|
  {
    if order != [] {
      var last := |order| - 1;
      var n, prefix := order[last], order[..last];
      NamesLeft(lvs, prefix, cuts[..last], y);
      NamesLeft(lvs, prefix, cuts[..last], n);
      if FateOf(lvs, n).Moves? {
        NamesLeft(lvs, prefix, cuts[..last], lvs[n].rollbackTarget);
        OneMover(lvs, prefix, n);
      }
      PassLast(lvs, order, cuts);
      NamesStep(lvs, prefix, Pass(lvs, prefix, cuts[..last]), n, y);
      assert order == prefix + [n];
    }
  }

  // A complete pass runs all commands of its last volume.
  lemma PassLast(lvs: Lvs, order: seq<string>, cuts: seq<nat>)
    requires |cuts| == |order| && Listed(lvs, order) && Complete(lvs, order, cuts) && order != []
    ensures var last := |order| - 1;
            Pass(lvs, order, cuts) == ApplyAll(Pass(lvs, order[..last], cuts[..last]), Actions(lvs, order[last]))
  {
    var todo := Actions(lvs, order[|order| - 1]);
    assert todo[..|todo|] == todo;
  }

  // No other volume moves onto the name a copy waits for.
  lemma OneMover(lvs: Lvs, order: seq<string>, n: string)
    requires Single(lvs) && n in lvs && FateOf(lvs, n).Moves? && n !in order
    ensures !MovedTo(lvs, order, lvs[n].rollbackTarget)
  {
    assert Waits(lvs, n);
    if MovedTo(lvs, order, lvs[n].rollbackTarget) {
      var m :| m in order && m in lvs && FateOf(lvs, m) == Moves(lvs[n].rollbackTarget);
      assert Waits(lvs, m);
      assert false;
    }
  }

  // ------------------------------------------------------ the lineage a complete pass leaves

  lemma ApplyOrigin(lvs: Lvs, n: string, state: Lvs, s: string)
    requires Owned(lvs, n) && n in state && s in state && s in lvs && s != n
    requires FateOf(lvs, n).Moves? ==> lvs[n].rollbackTarget !in state
    ensures var after := ApplyAll(state, Actions(lvs, n));
            s in after && after[s].origin == state[s].origin
  {
    ApplyKeys(lvs, n, state);
    TwoAtMost(lvs, n, state);
  }

  lemma ApplySnapshot(lvs: Lvs, s: string, state: Lvs)
    requires s in lvs && lvs[s].state == Snapshot && s in state && state[s].origin == lvs[s].origin
    ensures ApplyAll(state, Actions(lvs, s)).Keys == state.Keys
    ensures ApplyAll(state, Actions(lvs, s))[s].origin == Lineage(lvs[s])
  {
    TwoAtMost(lvs, s, state);
  }

  // A pass leaves a snapshot with the origin it was scanned with.
  lemma {:induction false} OriginLeft(lvs: Lvs, order: seq<string>, cuts: seq<nat>, s: string)
    requires Single(lvs) && |cuts| == |order| && Listed(lvs, order) && Complete(lvs, order, cuts)
    requires s in lvs && lvs[s].state == Snapshot
    ensures s in Pass(lvs, order, cuts)
    ensures Pass(lvs, order, cuts)[s].origin == if s in order then Lineage(lvs[s]) else lvs[s].origin
    decreases |order|
  {
    if order != [] {
      var last := |order| - 1;
      var n, prefix := order[last], order[..last];
      var before := Pass(lvs, prefix, cuts[..last]);
      OriginLeft(lvs, prefix, cuts[..last], s);
      NamesLeft(lvs, prefix, cuts[..last], n);
      PassLast(lvs, order, cuts);
      assert order == prefix + [n];
      if n == s {
        ApplySnapshot(lvs, s, before);
      } else {
        if FateOf(lvs, n).Moves? {
          NamesLeft(lvs, prefix, cuts[..last], lvs[n].rollbackTarget);
          OneMover(lvs, prefix, n);
        }
        ApplyOrigin(lvs, n, before, s);
      }
    }
  }

  // --------------------------------------------------------------------- building histories

  ghost function OwnedNames(lvs: Lvs): set<string> {
    set n | n in lvs && lvs[n].state != Foreign
  }

  // Extends a list to a scan.
  lemma {:induction false} ExtendScan(lvs: Lvs, order: seq<string>) returns (scan: seq<string>)
    requires Listed(lvs, order)
    ensures IsScan(lvs, scan) && order <= scan
    decreases OwnedNames(lvs) - set n | n in order
  {
    if n :| Owned(lvs, n) && n !in order {
      assert (order + [n])[..|order|] == order;
      assert n in OwnedNames(lvs) && n in order + [n];
      assert (set m | m in order + [n]) == (set m | m in order) + {n};
      scan := ExtendScan(lvs, order + [n]);
    } else {
      scan := order;
    }
  }

  ghost function Full(lvs: Lvs, order: seq<string>): seq<nat> {
    seq(|order|, _ => 2)
  }

  // No volume takes more than two commands.
  lemma {:induction false} FullCompletes(lvs: Lvs, order: seq<string>)
    requires Listed(lvs, order)
    ensures Complete(lvs, order, Full(lvs, order))
    decreases |order|
  {
    if order != [] {
      var last := |order| - 1;
      FullCompletes(lvs, order[..last]);
      assert Full(lvs, order)[..last] == Full(lvs, order[..last]);
    }
  }

  // A pass that crashes after the first command of its first volume.
  ghost function OneCommand(order: seq<string>): seq<nat> {
    seq(|order|, i => if i == 0 then 1 else 0)
  }

  lemma {:induction false} OneCommandPass(lvs: Lvs, order: seq<string>)
    requires Listed(lvs, order) && order != [] && Owned(lvs, order[0]) && Actions(lvs, order[0]) != []
    ensures Pass(lvs, order, OneCommand(order)) == Apply(lvs, Actions(lvs, order[0])[0])
    decreases |order|
  {
    var last := |order| - 1;
    var todo := Actions(lvs, order[last]);
    assert OneCommand(order)[..last] == OneCommand(order[..last]);
    if last == 0 {
      assert order[..0] == [] && todo[..1] == [todo[0]];
      ApplyTwo(lvs, todo[0], todo[0]);
    } else {
      OneCommandPass(lvs, order[..last]);
      assert todo[..0] == [];
    }
  }

  lemma RecoverOnce(lvs: Lvs) returns (history: seq<Attempt>)
    ensures |history| == 1 && Fits(lvs, history) && Recovered(lvs, history)
    ensures IsScan(lvs, history[0].order) && history[0].cuts == Full(lvs, history[0].order)
    ensures After(lvs, history) == Pass(lvs, history[0].order, history[0].cuts)
  {
    var order := ExtendScan(lvs, []);
    FullCompletes(lvs, order);
    history := [Attempt(order, Full(lvs, order))];
    assert history[1..] == [];
  }

  // Recovery that crashes after the first command on volume x and starts over.
  lemma CrashThenRecover(lvs: Lvs, x: string) returns (history: seq<Attempt>, order: seq<string>)
    requires Owned(lvs, x) && Actions(lvs, x) != []
    ensures Fits(lvs, history) && Recovered(lvs, history)
    ensures var mid := Apply(lvs, Actions(lvs, x)[0]);
            IsScan(mid, order) && After(lvs, history) == Pass(mid, order, Full(mid, order))
  {
    assert [x][..0] == [];
    var first := ExtendScan(lvs, [x]);
    OneCommandPass(lvs, first);
    var mid := Apply(lvs, Actions(lvs, x)[0]);
    var rest := RecoverOnce(mid);
    order := rest[0].order;
    history := [Attempt(first, OneCommand(first))] + rest;
    assert history[1..] == rest;
  }

  // ------------------------------------------------------------------------- the two failures

  lemma SingleAfterLeaving(lvs: Lvs, x: string)
    requires Single(lvs) && Owned(lvs, x) && !FateOf(lvs, x).Stays?
    ensures var mid := Apply(lvs, Actions(lvs, x)[0]);
            Single(mid) && x !in mid
  {
    var mid := Apply(lvs, Actions(lvs, x)[0]);
    forall m | Waits(mid, m) ensures Waits(lvs, m) && m in lvs && mid[m].rollbackTarget == lvs[m].rollbackTarget {
    }
  }

  lemma WaiterMoves(lvs: Lvs, x: string, t: string)
    requires Single(lvs) && Owned(lvs, x) && !FateOf(lvs, x).Stays? && Waits(lvs, t) && lvs[t].rollbackTarget == x
    ensures var mid := Apply(lvs, Actions(lvs, x)[0]);
            Owned(mid, t) && FateOf(mid, t) == Moves(x)
  {
  }

  // Recovered in one go, a name that recovery takes away is gone.
  lemma OnceDrops(lvs: Lvs, x: string) returns (g: seq<Attempt>)
    requires Single(lvs) && Owned(lvs, x) && !FateOf(lvs, x).Stays?
    ensures Fits(lvs, g) && Recovered(lvs, g) && x !in After(lvs, g)
  {
    g := RecoverOnce(lvs);
    FullCompletes(lvs, g[0].order);
    NamesLeft(lvs, g[0].order, g[0].cuts, x);
  }

  // After a crash in between, the copy that waited for the name claims it.
  lemma CrashClaims(lvs: Lvs, t: string) returns (h: seq<Attempt>)
    requires Single(lvs) && Waits(lvs, t)
    requires Owned(lvs, lvs[t].rollbackTarget) && !FateOf(lvs, lvs[t].rollbackTarget).Stays?
    ensures Fits(lvs, h) && Recovered(lvs, h) && lvs[t].rollbackTarget in After(lvs, h)
  {
    var x := lvs[t].rollbackTarget;
    var order;
    h, order := CrashThenRecover(lvs, x);
    var mid := Apply(lvs, Actions(lvs, x)[0]);
    SingleAfterLeaving(lvs, x);
    WaiterMoves(lvs, x, t);
    assert MovedTo(mid, order, x);
    FullCompletes(mid, order);
    NamesLeft(mid, order, Full(mid, order), x);
  }

  lemma CopyDiverges(lvs: Lvs, t: string)
    requires Single(lvs) && Waits(lvs, t)
    requires Owned(lvs, lvs[t].rollbackTarget) && !FateOf(lvs, lvs[t].rollbackTarget).Stays?
    ensures exists g, h :: Fits(lvs, g) && Fits(lvs, h) && Recovered(lvs, g) && Recovered(lvs, h)
                           && After(lvs, g) != After(lvs, h)
  {
    var g := OnceDrops(lvs, lvs[t].rollbackTarget);
    var h := CrashClaims(lvs, t);
    assert After(lvs, g) != After(lvs, h);
  }

  // An untagged snapshot hangs on an lv that recovery takes away: whether its lineage is saved
  // depends on a crash in between.
  lemma LineageDiverges(lvs: Lvs, s: string)
    requires Single(lvs) && s in lvs && lvs[s].state == Snapshot && lvs[s].origin == ""
    requires lvs[s].lvmOrigin in lvs && !FateOf(lvs, lvs[s].lvmOrigin).Stays?
    ensures exists g, h :: Fits(lvs, g) && Fits(lvs, h) && Recovered(lvs, g) && Recovered(lvs, h)
                           && After(lvs, g) != After(lvs, h)
  {
    var y := lvs[s].lvmOrigin;
    var g := RecoverOnce(lvs);
    FullCompletes(lvs, g[0].order);
    OriginLeft(lvs, g[0].order, g[0].cuts, s);
    assert After(lvs, g)[s].origin == y;
    var h, order := CrashThenRecover(lvs, y);
    var mid := Apply(lvs, Actions(lvs, y)[0]);
    SingleAfterLeaving(lvs, y);
    OriginForgotten(lvs, s);
    FullCompletes(mid, order);
    OriginLeft(mid, order, Full(mid, order), s);
    assert After(lvs, h)[s].origin != y;
  }

  lemma OriginForgotten(lvs: Lvs, s: string)
    requires Single(lvs) && s in lvs && lvs[s].state == Snapshot && lvs[s].origin == ""
    requires lvs[s].lvmOrigin in lvs && !FateOf(lvs, lvs[s].lvmOrigin).Stays?
    ensures var mid := Apply(lvs, Actions(lvs, lvs[s].lvmOrigin)[0]);
            s in mid && mid[s].state == Snapshot && mid[s].origin == "" && mid[s].lvmOrigin != lvs[s].lvmOrigin
  {
  }

  // All recoveries of a node end alike exactly when it is clean.
  lemma ConvergesIff(lvs: Lvs)
    requires Single(lvs)
    ensures Clean(lvs) <==>
            forall g, h :: Fits(lvs, g) && Fits(lvs, h) && Recovered(lvs, g) && Recovered(lvs, h)
              ==> After(lvs, g) == After(lvs, h)
  {
    if Clean(lvs) {
      forall g, h | Fits(lvs, g) && Fits(lvs, h) && Recovered(lvs, g) && Recovered(lvs, h)
        ensures After(lvs, g) == After(lvs, h)
      {
        RecoverConverges(lvs, g);
        RecoverConverges(lvs, h);
      }
    } else if !CopiesSettle(lvs) {
      var t :| Waits(lvs, t) && Owned(lvs, lvs[t].rollbackTarget) && !FateOf(lvs, lvs[t].rollbackTarget).Stays?;
      CopyDiverges(lvs, t);
    } else {
      var s :| s in lvs && lvs[s].state == Snapshot && lvs[s].origin == "" && lvs[s].lvmOrigin in lvs
               && !FateOf(lvs, lvs[s].lvmOrigin).Stays?;
      LineageDiverges(lvs, s);
    }
  }
}
