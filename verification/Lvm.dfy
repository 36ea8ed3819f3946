/** The node's lvm state as the daemon sees it, and the lvm commands it issues
    (lvm/lv.go, internal/storage/volumes.go).

    A command takes full effect or none. Tags are decoded here, module Tags shows that the encoded
    form carries the same information.
  */
module Lvm {
  import opened Digest

  // Unknown is an unreadable state tag, Foreign an lv without one.
  datatype State =
    | Creating | Ready | Attached | Pushing | Committing | Incoming
    | Retired | Deleting | Snapshot | Rollback | Unknown | Foreign

  // origin is the lineage tag, lvmOrigin the field lvm keeps itself. Empty strings mean absent.
  datatype LV = LV(
    state: State, active: bool, skip: bool, content: Bytes,
    transfer: string, target: string, rollbackTarget: string,
    origin: string, lvmOrigin: string)

  type Lvs = map<string, LV>

  function Thin(state: State, active: bool, size: nat, transfer: string): LV {
    LV(state, active, false, Zeros(size), transfer, "", "", "", "")
  }

  // The tag edits the daemon makes with one lvchange.
  datatype Edit =
    | Become(state: State)
    | BeginPush(transfer: string, target: string)
    | EndPush(state: State)
    | EndReceive
    | TagOrigin(origin: string)
    | EndRollback

  function Edited(lv: LV, edit: Edit): LV {
    match edit
    case Become(s) => lv.(state := s)
    case BeginPush(t, a) => lv.(state := Pushing, transfer := t, target := a)
    case EndPush(s) => lv.(state := s, transfer := "", target := "")
    case EndReceive => lv.(state := Ready, transfer := "")
    case TagOrigin(o) => lv.(origin := o)
    case EndRollback => lv.(state := Ready, rollbackTarget := "", skip := false)
  }

  datatype Command =
    | Create(name: string, lv: LV)
    | Remove(name: string)
    | Rename(name: string, newName: string)
    | Change(name: string, edit: Edit)
    | Activate(name: string, ignoreSkip: bool)
    | Deactivate(name: string)

  // Whether lvm has the lvs the command names, and a free name where it needs one.
  predicate Runs(lvs: Lvs, c: Command) {
    match c
    case Create(n, _) => n !in lvs
    case Rename(n, m) => n in lvs && m !in lvs
    case _ => c.name in lvs
  }

  // The lvm origin field follows a rename and empties with the removal of the origin.
  function Relinked(lv: LV, name: string, newName: string): LV {
    if lv.lvmOrigin == name then lv.(lvmOrigin := newName) else lv
  }

  function Removed(lvs: Lvs, n: string): Lvs {
    map k | k in lvs && k != n :: Relinked(lvs[k], n, "")
  }

  function Renamed(lvs: Lvs, n: string, m: string): Lvs
    requires n in lvs && m !in lvs
  {
    map k | k in lvs.Keys - {n} + {m} :: Relinked(lvs[if k == m then n else k], n, m)
  }

  function Activated(lv: LV, ignoreSkip: bool): LV {
    if lv.skip && !ignoreSkip then lv else lv.(active := true)
  }

  function Apply(lvs: Lvs, c: Command): Lvs {
    if !Runs(lvs, c) then lvs
    else
      match c
      case Create(n, lv) => lvs[n := lv]
      case Remove(n) => Removed(lvs, n)
      case Rename(n, m) => Renamed(lvs, n, m)
      case Change(n, edit) => lvs[n := Edited(lvs[n], edit)]
      case Activate(n, ignoreSkip) => lvs[n := Activated(lvs[n], ignoreSkip)]
      case Deactivate(n) => lvs[n := lvs[n].(active := false)]
  }

  function ApplyAll(lvs: Lvs, cs: seq<Command>): Lvs {
    if cs == [] then lvs else Apply(ApplyAll(lvs, cs[..|cs| - 1]), cs[|cs| - 1])
  }

  // A snapshot's origin: the tag, or what lvm still knows for snapshots older than the tag.
  function Lineage(lv: LV): string {
    if lv.origin != "" then lv.origin else if lv.state == Snapshot then lv.lvmOrigin else ""
  }

  // The deterministic name of the copy a rollback works on.
  function RollbackTempName(volume: string): string {
    volume + "+rb"
  }
}
