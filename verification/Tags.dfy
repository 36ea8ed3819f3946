/** The lvm tags a volume's record is kept in (internal/storage/volumes.go, internal/storage/pushes.go,
    internal/storage/rollback.go) and lvm's comma joined list of them (splitList in lvm/lv.go).

    lvm hands tags back in no particular order.
  */
module Tags {
  import opened Digest
  import opened Lvm

  const STATE := "beanstore.state="
  const ORIGIN := "beanstore.origin="
  const TRANSFER := "beanstore.transfer="
  const TARGET := "beanstore.target="
  const ROLLBACK_TARGET := "beanstore.rollback_target="
  const KINDS := {STATE, ORIGIN, TRANSFER, TARGET, ROLLBACK_TARGET}

  datatype Cut = NotFound | Found(value: string)

  function CutPrefix(tag: string, prefix: string): Cut {
    if prefix <= tag then Found(tag[|prefix|..]) else NotFound
  }

  // The value of the first tag with the prefix, empty without one.
  function TagValue(tags: seq<string>, prefix: string): string {
    if tags == [] then ""
    else match CutPrefix(tags[0], prefix)
      case Found(value) => value
      case NotFound => TagValue(tags[1..], prefix)
  }

  function StateName(state: State): string {
    match state
    case Creating => "creating"
    case Ready => "ready"
    case Attached => "attached"
    case Pushing => "pushing"
    case Committing => "committing"
    case Incoming => "incoming"
    case Retired => "retired"
    case Deleting => "deleting"
    case Snapshot => "snapshot"
    case Rollback => "rollback"
    case _ => ""
  }

  function KnownState(value: string): State {
    if value == "creating" then Creating
    else if value == "ready" then Ready
    else if value == "attached" then Attached
    else if value == "pushing" then Pushing
    else if value == "committing" then Committing
    else if value == "incoming" then Incoming
    else if value == "retired" then Retired
    else if value == "deleting" then Deleting
    else if value == "snapshot" then Snapshot
    else if value == "rollback" then Rollback
    else Unknown
  }

  // Without a state tag the lv is foreign.
  function StateOf(tags: seq<string>): State {
    if tags == [] then Foreign
    else match CutPrefix(tags[0], STATE)
      case Found(value) => KnownState(value)
      case NotFound => StateOf(tags[1..])
  }

  // ---------------------------------------------------------------------------------- encoding

  function Optional(prefix: string, value: string): set<string> {
    if value == "" then {} else {prefix + value}
  }

  // The tags of a record. lvm keeps a set.
  function TagsOf(lv: LV): set<string> {
    {STATE + StateName(lv.state)}
    + Optional(ORIGIN, lv.origin) + Optional(TRANSFER, lv.transfer) + Optional(TARGET, lv.target)
    + Optional(ROLLBACK_TARGET, lv.rollbackTarget)
  }

  ghost predicate Lists(tags: seq<string>, names: set<string>) {
    forall t :: t in tags <==> t in names
  }

  predicate Named(lv: LV) {
    lv.state != Unknown && lv.state != Foreign
  }

  // No tag of one kind reads as one of another.
  lemma PrefixesApart(p: string, q: string, value: string)
    requires p in KINDS && q in KINDS
    ensures q <= p + value <==> p == q
    ensures p == q ==> CutPrefix(p + value, q) == Found(value)
  {
    assert (p + value)[..|p|] == p;
    assert (p + value)[10] == p[10] && (p + value)[11] == p[11];
    if q <= p + value {
      assert q[10] == p[10] && q[11] == p[11];
    }
  }

  // Whatever the order, the first tag with a prefix is the only one.
  lemma {:induction false} TagFound(tags: seq<string>, prefix: string, value: string)
    requires prefix + value in tags
    requires forall t :: t in tags && prefix <= t ==> t == prefix + value
    ensures TagValue(tags, prefix) == value
    ensures prefix == STATE ==> StateOf(tags) == KnownState(value)
  {
    assert (prefix + value)[|prefix|..] == value && prefix <= prefix + value;
    assert tags == [tags[0]] + tags[1..] && tags[0] in tags;
    assert forall t :: t in tags[1..] ==> t in tags;
    if !(prefix <= tags[0]) {
      TagFound(tags[1..], prefix, value);
    }
  }

  lemma {:induction false} TagMissing(tags: seq<string>, prefix: string)
    requires forall t :: t in tags ==> !(prefix <= t)
    ensures TagValue(tags, prefix) == ""
    ensures prefix == STATE ==> StateOf(tags) == Foreign
  {
    if tags != [] {
      assert tags[0] in tags;
      assert forall t :: t in tags[1..] ==> t in tags;
      TagMissing(tags[1..], prefix);
    }
  }

  function Field(lv: LV, prefix: string): string
    requires prefix in KINDS
  {
    if prefix == STATE then StateName(lv.state)
    else if prefix == ORIGIN then lv.origin
    else if prefix == TRANSFER then lv.transfer
    else if prefix == TARGET then lv.target
    else lv.rollbackTarget
  }

  // The tags of a record are one per field that is set.
  lemma TagIsField(lv: LV, t: string) returns (p: string)
    requires t in TagsOf(lv)
    ensures p in KINDS && t == p + Field(lv, p) && (p == STATE || Field(lv, p) != "")
  {
    p := if t == STATE + StateName(lv.state) then STATE
         else if t in Optional(ORIGIN, lv.origin) then ORIGIN
         else if t in Optional(TRANSFER, lv.transfer) then TRANSFER
         else if t in Optional(TARGET, lv.target) then TARGET
         else ROLLBACK_TARGET;
  }

  lemma FieldHasTag(lv: LV, p: string)
    requires p in KINDS && (p == STATE || Field(lv, p) != "")
    ensures p + Field(lv, p) in TagsOf(lv)
  {
  }

  lemma OnlyOfItsKind(lv: LV, t: string, p: string)
    requires t in TagsOf(lv) && p in KINDS && p <= t
    ensures t == p + Field(lv, p) && (p == STATE || Field(lv, p) != "")
  {
    hide TagsOf, Field;
    var q := TagIsField(lv, t);
    PrefixesApart(q, p, Field(lv, q));
  }

  lemma FieldRead(lv: LV, tags: seq<string>, p: string)
    requires Lists(tags, TagsOf(lv)) && p in KINDS
    ensures TagValue(tags, p) == Field(lv, p)
    ensures p == STATE ==> StateOf(tags) == KnownState(Field(lv, p))
  {
    hide TagsOf, Field;
    forall t | t in tags && p <= t ensures t == p + Field(lv, p) && (p == STATE || Field(lv, p) != "") {
      OnlyOfItsKind(lv, t, p);
    }
    if p == STATE || Field(lv, p) != "" {
      FieldHasTag(lv, p);
      TagFound(tags, p, Field(lv, p));
    } else {
      TagMissing(tags, p);
    }
  }

  // Round trip: read back in any order, the tags give the record they were written for.
  lemma TagsRoundTrip(lv: LV, tags: seq<string>)
    requires Named(lv) && Lists(tags, TagsOf(lv))
    ensures StateOf(tags) == lv.state
    ensures TagValue(tags, ORIGIN) == lv.origin && TagValue(tags, TRANSFER) == lv.transfer
    ensures TagValue(tags, TARGET) == lv.target && TagValue(tags, ROLLBACK_TARGET) == lv.rollbackTarget
  {
    hide TagsOf, Lists, TagValue, StateOf;
    FieldRead(lv, tags, STATE);
    FieldRead(lv, tags, ORIGIN);
    FieldRead(lv, tags, TRANSFER);
    FieldRead(lv, tags, TARGET);
    FieldRead(lv, tags, ROLLBACK_TARGET);
  }

  // ------------------------------------------------------------------------------- tag edits

  // One lvchange with its deltag and addtag options.
  datatype TagEdit = TagEdit(remove: set<string>, add: set<string>)

  function StateTag(state: State): string {
    STATE + StateName(state)
  }

  // The options each verb passes for its edit of a record.
  function EditOptions(lv: LV, edit: Edit): TagEdit {
    match edit
    case Become(s) => TagEdit({StateTag(lv.state)}, {StateTag(s)})
    case BeginPush(t, a) => TagEdit({StateTag(Ready)}, {StateTag(Pushing), TRANSFER + t, TARGET + a})
    case EndPush(s) => TagEdit({StateTag(lv.state), TRANSFER + lv.transfer, TARGET + lv.target}, {StateTag(s)})
    case EndReceive => TagEdit({StateTag(Incoming), TRANSFER + lv.transfer}, {StateTag(Ready)})
    case TagOrigin(o) => TagEdit({}, {ORIGIN + o})
    case EndRollback => TagEdit({StateTag(Rollback), ROLLBACK_TARGET + lv.rollbackTarget}, {StateTag(Ready)})
  }

  // The records a verb edits: the state it checked, and fields of other states unset.
  predicate Editable(lv: LV, edit: Edit) {
    && Named(lv)
    && match edit
       case Become(s) => s != lv.state && s != Unknown && s != Foreign
       case BeginPush(t, a) => lv.state == Ready && lv.transfer == "" && lv.target == "" && t != "" && a != ""
       case EndPush(s) => s in {Ready, Retired} && lv.state in {Pushing, Committing}
       case EndReceive => lv.state == Incoming
       case TagOrigin(o) => lv.origin == "" && o != ""
       case EndRollback => lv.state == Rollback
  }

  lemma Apart(p: string, v: string, q: string, w: string)
    requires p in KINDS && q in KINDS && p != q
    ensures p + v !in Optional(q, w)
  {
    PrefixesApart(p, q, v);
    assert q <= q + w;
  }

  // A tag of one kind is no tag of the four others.
  lemma ApartFromOthers(lv: LV, p: string, v: string)
    requires p in KINDS
    ensures p != STATE ==> p + v != StateTag(lv.state)
    ensures p != ORIGIN ==> p + v !in Optional(ORIGIN, lv.origin)
    ensures p != TRANSFER ==> p + v !in Optional(TRANSFER, lv.transfer)
    ensures p != TARGET ==> p + v !in Optional(TARGET, lv.target)
    ensures p != ROLLBACK_TARGET ==> p + v !in Optional(ROLLBACK_TARGET, lv.rollbackTarget)
  {
    hide Optional;
    if p != STATE {
      PrefixesApart(p, STATE, v);
      assert STATE <= StateTag(lv.state);
    }
    if p != ORIGIN { Apart(p, v, ORIGIN, lv.origin); }
    if p != TRANSFER { Apart(p, v, TRANSFER, lv.transfer); }
    if p != TARGET { Apart(p, v, TARGET, lv.target); }
    if p != ROLLBACK_TARGET { Apart(p, v, ROLLBACK_TARGET, lv.rollbackTarget); }
  }

  // Taking one tag of each of three kinds away, and adding others.
  lemma TakeAway(s: set<string>, o: set<string>, t: set<string>, a: set<string>, r: set<string>, gone: set<string>,
                 add: set<string>)
    requires gone !! o
    ensures t <= gone && a <= gone && s <= gone && gone !! r ==> s + o + t + a + r - gone + add == add + o + r
    ensures t <= gone && gone !! a && s <= gone && gone !! r ==> s + o + t + a + r - gone + add == add + o + a + r
    ensures r <= gone && gone !! t && gone !! a && s <= gone ==> s + o + t + a + r - gone + add == add + o + t + a
    ensures s == gone && gone !! t && gone !! a && gone !! r ==> s + o + t + a + r - gone + add == add + o + t + a + r
  {
  }

  lemma TakeAwayOf(lv: LV, gone: set<string>, add: set<string>)
    requires gone !! Optional(ORIGIN, lv.origin)
    ensures var s, o, t, a, r := {StateTag(lv.state)}, Optional(ORIGIN, lv.origin), Optional(TRANSFER, lv.transfer),
                                 Optional(TARGET, lv.target), Optional(ROLLBACK_TARGET, lv.rollbackTarget);
            && (t <= gone && a <= gone && s <= gone && gone !! r ==> TagsOf(lv) - gone + add == add + o + r)
            && (t <= gone && gone !! a && s <= gone && gone !! r ==> TagsOf(lv) - gone + add == add + o + a + r)
            && (r <= gone && gone !! t && gone !! a && s <= gone ==> TagsOf(lv) - gone + add == add + o + t + a)
            && (s == gone && gone !! t && gone !! a && gone !! r ==> TagsOf(lv) - gone + add == add + o + t + a + r)
  {
    hide Optional, StateTag;
    TakeAway({StateTag(lv.state)}, Optional(ORIGIN, lv.origin), Optional(TRANSFER, lv.transfer),
             Optional(TARGET, lv.target), Optional(ROLLBACK_TARGET, lv.rollbackTarget), gone, add);
    assert {STATE + StateName(lv.state)} == {StateTag(lv.state)} by {
      StateTagIs(lv.state);
    }
  }

  lemma StateTagIs(s: State)
    ensures StateTag(s) == STATE + StateName(s)
  {
  }

  ghost predicate Refines(lv: LV, edit: Edit) {
    TagsOf(Edited(lv, edit)) == TagsOf(lv) - EditOptions(lv, edit).remove + EditOptions(lv, edit).add
  }

  // Edits that take the state tag only.
  lemma StateEditRefines(lv: LV, edit: Edit)
    requires Editable(lv, edit) && (edit.Become? || edit.BeginPush?)
    ensures Refines(lv, edit)
  {
    hide StateName;
    ApartFromOthers(lv, STATE, StateName(lv.state));
    TakeAwayOf(lv, EditOptions(lv, edit).remove, EditOptions(lv, edit).add);
  }

  // Edits that take the state tag and the transfer with it.
  lemma TransferEditRefines(lv: LV, edit: Edit)
    requires Editable(lv, edit) && (edit.EndPush? || edit.EndReceive?)
    ensures Refines(lv, edit)
  {
    hide StateName;
    ApartFromOthers(lv, STATE, StateName(lv.state));
    ApartFromOthers(lv, TRANSFER, lv.transfer);
    ApartFromOthers(lv, TARGET, lv.target);
    TakeAwayOf(lv, EditOptions(lv, edit).remove, EditOptions(lv, edit).add);
  }

  lemma RollbackEditRefines(lv: LV, edit: Edit)
    requires Editable(lv, edit) && edit.EndRollback?
    ensures Refines(lv, edit)
  {
    hide StateName;
    ApartFromOthers(lv, STATE, StateName(lv.state));
    ApartFromOthers(lv, ROLLBACK_TARGET, lv.rollbackTarget);
    TakeAwayOf(lv, EditOptions(lv, edit).remove, EditOptions(lv, edit).add);
  }

  // The tag edits are the record edits: lvm's set of tags after the lvchange is the set of the
  // edited record's tags.
  lemma EditsRefine(lv: LV, edit: Edit)
    requires Editable(lv, edit)
    ensures Refines(lv, edit)
  {
    if edit.Become? || edit.BeginPush? {
      StateEditRefines(lv, edit);
    } else if edit.EndPush? || edit.EndReceive? {
      TransferEditRefines(lv, edit);
    } else if edit.EndRollback? {
      RollbackEditRefines(lv, edit);
    }
  }

  // ------------------------------------------------------------------------- lvm's tag lists

  // strings.Split on a non-empty list field.
  function SplitAt(value: string): (r: seq<string>)
    ensures |r| > 0
  {
    if value == "" then [""]
    else if value[0] == ',' then [""] + SplitAt(value[1..])
    else
      var rest := SplitAt(value[1..]);
      [[value[0]] + rest[0]] + rest[1..]
  }

  function SplitList(value: string): seq<string> {
    if value == "" then [] else SplitAt(value)
  }

  function Join(tags: seq<string>): string {
    if tags == [] then "" else if |tags| == 1 then tags[0] else tags[0] + "," + Join(tags[1..])
  }

  predicate NoComma(tag: string) {
    ',' !in tag
  }

  lemma {:induction false} SplitOne(tag: string)
    requires NoComma(tag)
    ensures SplitAt(tag) == [tag]
  {
    if tag != "" {
      SplitOne(tag[1..]);
      assert [tag[0]] + tag[1..] == tag;
    }
  }

  lemma {:induction false} SplitFirst(tag: string, rest: string)
    requires NoComma(tag)
    ensures SplitAt(tag + "," + rest) == [tag] + SplitAt(rest)
  {
    if tag == "" {
      assert (tag + "," + rest)[1..] == rest;
    } else {
      assert (tag + "," + rest)[1..] == tag[1..] + "," + rest;
      SplitFirst(tag[1..], rest);
      assert [tag[0]] + tag[1..] == tag;
    }
  }

  // Comma joined tags split into themselves.
  lemma {:induction false} SplitJoin(tags: seq<string>)
    requires forall i :: 0 <= i < |tags| ==> NoComma(tags[i])
    requires |tags| == 1 ==> tags[0] != ""
    ensures SplitList(Join(tags)) == tags
  {
    if tags == [] {
    } else if |tags| == 1 {
      SplitOne(tags[0]);
    } else {
      SplitFirst(tags[0], Join(tags[1..]));
      if |tags| == 2 && tags[1] == "" {
        SplitOne("");
        assert tags == [tags[0], ""];
      } else {
        SplitJoin(tags[1..]);
      }
      assert Join(tags) != "";
    }
  }

  // Ids, transfers and addresses have no comma in them.
  predicate Charset(lv: LV) {
    NoComma(lv.origin) && NoComma(lv.transfer) && NoComma(lv.target) && NoComma(lv.rollbackTarget)
  }

  lemma TagHasNoComma(lv: LV, t: string)
    requires Charset(lv) && t in TagsOf(lv)
    ensures NoComma(t) && t != ""
  {
    hide TagsOf;
    var p := TagIsField(lv, t);
    assert NoComma(Field(lv, p));
    assert NoComma(p);
  }

  // From a record through lvm's comma joined field, in whatever order, and back.
  lemma RecordRoundTrip(lv: LV, tags: seq<string>)
    requires Named(lv) && Charset(lv) && Lists(tags, TagsOf(lv))
    ensures var read := SplitList(Join(tags));
            && StateOf(read) == lv.state
            && TagValue(read, ORIGIN) == lv.origin && TagValue(read, TRANSFER) == lv.transfer
            && TagValue(read, TARGET) == lv.target && TagValue(read, ROLLBACK_TARGET) == lv.rollbackTarget
  {
    hide TagsOf, NoComma, StateOf, TagValue;
    forall i | 0 <= i < |tags| ensures NoComma(tags[i]) && tags[i] != "" {
      assert tags[i] in tags;
      TagHasNoComma(lv, tags[i]);
    }
    SplitJoin(tags);
    TagsRoundTrip(lv, tags);
  }
}
