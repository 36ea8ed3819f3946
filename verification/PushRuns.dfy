/** Whole pushes against their target: the push of a volume (runPush to failPush in
    internal/api/push.go) and of a snapshot (internal/api/pushsnapshot.go).
  */
module PushRuns {
  import opened Digest
  import opened Sessions
  import opened Stream
  import opened Push
  import C = Cluster
  import O = Order
  import L = Lvm
  import K = Clients
  import V = Volumes
  import P = Pushes
  import X = Readers
  import opened Pins

  // -------------------------------------------------------------------------------- the target

  // The receiver behind a transfer of a node.
  function ReceiverOf(n: C.Node): Receiver
    requires n.inbound.Live? && n.copy.Copy?
  {
    Receiver(n.inbound.session, n.copy.content)
  }

  // The target of a push: nothing landed yet, and what its session has comes from this content.
  ghost predicate Pushable(sha: Sha, n: C.Node, transfer: string, content: Bytes) {
    && Open(sha, n, transfer)
    && (Mine(n, transfer) ==> n.copy.Copy? && Tracks(sha, content, ReceiverOf(n)))
  }

  // The session is live, no write has failed and none will.
  ghost predicate Steady(n: C.Node, transfer: string, attempts: seq<Attempt>) {
    Mine(n, transfer) && Unspoiled(n.inbound.session) && AllCalm(attempts)
  }

  // The target with its receiver moved on.
  function Moved(n: C.Node, rcv: Receiver): C.Node
    requires n.inbound.Live? && n.copy.Copy?
  {
    n.(inbound := n.inbound.(session := rcv.session), copy := n.copy.(content := rcv.device))
  }

  lemma MovedPushable(sha: Sha, n: C.Node, transfer: string, content: Bytes, rcv: Receiver)
    requires Pushable(sha, n, transfer, content) && Mine(n, transfer) && Tracks(sha, content, rcv)
    ensures Pushable(sha, Moved(n, rcv), transfer, content)
  {
    hide Unspoiled, Synced;
  }

  // A content compares clearly with itself.
  lemma SameIsClear(sha: Sha, n: C.Node, transfer: string, content: Bytes)
    requires Pushable(sha, n, transfer, content) && Mine(n, transfer) && |content| < TWO_63
    requires Unspoiled(n.inbound.session) && n.copy.content == content
    ensures Clear(sha, n, transfer, content)
  {
    hide Synced, Seal, Log, Faithful;
    SealIsContentLog(sha, ReceiverOf(n));
    SelfDistinguished(sha, content, NumChunks(|content|));
  }

  lemma {:induction false} SelfDistinguished(sha: Sha, content: Bytes, k: nat)
    requires k <= NumChunks(|content|)
    ensures ChunksDistinguished(sha, content, content, k)
  {
    if k > 0 {
      SelfDistinguished(sha, content, k - 1);
    }
  }

  // Streams into the target. Without a live session the query is refused for good.
  method StreamInto(sha: Sha, device: array<byte>, target: C.Node, transfer: string, attempts: seq<Attempt>)
      returns (ok: bool, digest: Hash, after: C.Node)
    requires device.Length < TWO_63 && Pushable(sha, target, transfer, device[..]) && |attempts| == C.PUSH_ATTEMPTS
    ensures Pushable(sha, after, transfer, device[..]) && (Mine(after, transfer) <==> Mine(target, transfer))
    ensures ok ==> Mine(after, transfer) && digest == ContentDigest(sha, device[..])
    ensures ok && Unspoiled(after.inbound.session) ==> Clear(sha, after, transfer, device[..])
    ensures Steady(target, transfer, attempts) ==>
              (ok <==> exists k :: FirstThrough(attempts, device[..], k)) && Unspoiled(after.inbound.session)
  {
    hide Sound, Unspoiled, Tracks, Open, Clear, FirstThrough, AllCalm, Synced;
    ok, digest, after := false, Zeros(HASH_BYTES), target;
    if Mine(target, transfer) {
      var rcv;
      ghost var codes, lasts;
      ok, digest, rcv, codes, lasts := StreamVolume(sha, device, ReceiverOf(target), attempts);
      MovedPushable(sha, target, transfer, device[..], rcv);
      after := Moved(target, rcv);
      if ok && Unspoiled(after.inbound.session) {
        SameIsClear(sha, after, transfer, device[..]);
      }
    }
  }

  // QueryVolume and AbortTransfer, each of which may not get through.
  datatype Query = Query(upset: Upset, reached: bool)

  datatype Abort = Abort(arrives: bool, removed: bool)

  function Aborted(n: C.Node, transfer: string, abort: Abort): C.Node {
    if abort.arrives && Mine(n, transfer) then C.Destroyed(n, abort.removed) else n
  }

  lemma AbortCloses(sha: Sha, n: C.Node, transfer: string, abort: Abort)
    requires C.NodeOk(sha, n)
    ensures C.Answers(Aborted(n, transfer, abort)) <==> C.Answers(n)
    ensures Open(sha, n, transfer) && abort.arrives ==> Closed(Aborted(n, transfer, abort), transfer)
  {
    hide Sound;
  }

  predicate Landed(outcome: C.Option<CommitOutcome>, queried: C.Option<bool>) {
    outcome == C.Some(CommitLanded) || (outcome == C.Some(CommitUnknown) && queried == C.Some(true))
  }

  predicate NotLanded(outcome: C.Option<CommitOutcome>, queried: C.Option<bool>) {
    outcome.None? || outcome == C.Some(CommitRefused) || (outcome == C.Some(CommitUnknown) && queried == C.Some(false))
  }

  // The target after the talk about a commit, the query after an unknown outcome and the abort after
  // the answer that nothing landed.
  ghost predicate Told(sha: Sha, target: C.Node, transfer: string, digest: Bytes, rpcs: seq<Rpc>, query: Query,
                       abort: Abort, outcome: CommitOutcome, queried: C.Option<bool>, after: C.Node)
  {
    exists replies, mid ::
      && Talk(sha, target, transfer, digest, rpcs, replies, outcome, mid)
      && if outcome.CommitUnknown? && query.reached then
           var asked := Upsetting(mid, query.upset);
           && queried == C.Some(C.Answers(asked))
           && after == if C.Answers(asked) then asked else Aborted(asked, transfer, abort)
         else queried.None? && after == mid
  }

  // commitPush, the query after an unknown outcome, and the abort when nothing landed. What the
  // source learns is so.
  method CommitAndAsk(sha: Sha, target: C.Node, transfer: string, ghost content: Bytes, ghost clear: bool, digest: Hash,
                      rpcs: seq<Rpc>, query: Query, abort: Abort)
      returns (outcome: C.Option<CommitOutcome>, queried: C.Option<bool>, after: C.Node, ghost handed: C.Option<Bytes>)
    requires |content| < TWO_64 && digest == ContentDigest(sha, content) && |rpcs| == C.PUSH_ATTEMPTS
    requires Open(sha, target, transfer) && (clear ==> Clear(sha, target, transfer, content))
    ensures outcome.Some? && (queried.Some? <==> outcome == C.Some(CommitUnknown) && query.reached)
    ensures Told(sha, target, transfer, digest, rpcs, query, abort, outcome.value, queried, after)
    ensures Landed(outcome, queried) ==> HasIt(sha, after, content, clear, handed)
    ensures NotLanded(outcome, queried) ==> !C.Answers(after) && (abort.arrives ==> Closed(after, transfer))
  {
    hide Clear, Distinguishes, Sound, Inconclusive, Driven, C.NodeOk, Talk;
    var answer;
    ghost var replies;
    answer, after, replies, handed := CommitPush(sha, target, transfer, content, clear, digest, rpcs);
    ghost var mid := after;
    outcome, queried := C.Some(answer), C.None;
    if answer.CommitUnknown? && query.reached {
      UpsetKeeps(sha, after, transfer, content, clear, handed, query.upset);
      after := Upsetting(after, query.upset);
      queried := C.Some(C.Answers(after));
      if queried == C.Some(false) {
        AbortCloses(sha, after, transfer, abort);
        after := Aborted(after, transfer, abort);
      }
    }
  }

  // -------------------------------------------------------------------------- pushing a volume

  // The record a push leaves behind when lvm works: RETIRED if the target has the volume, READY if
  // not, COMMITTING with both push tags if it could not be asked.
  function PushLeaves(lv: L.LV, outcome: C.Option<CommitOutcome>, queried: C.Option<bool>): L.LV {
    var retired := lv.(state := L.Retired, active := false, transfer := "", target := "");
    var reverted := lv.(state := L.Ready, active := false, transfer := "", target := "");
    match outcome
    case Some(CommitLanded) => retired
    case Some(CommitUnknown) =>
      if queried.None? then lv.(state := L.Committing, active := false) else if queried.value then retired else reverted
    case _ => reverted
  }

  // What holds of the record even when lvm fails on the way: the content stays, RETIRED and READY
  // only as the target said, and both tags until one of the two.
  predicate PushKeeps(lv: L.LV, now: L.LV, outcome: C.Option<CommitOutcome>, queried: C.Option<bool>) {
    && now.content == lv.content
    && now.state in {L.Pushing, L.Committing, PushLeaves(lv, outcome, queried).state}
    && (now.state in {L.Pushing, L.Committing} ==> now.transfer == lv.transfer && now.target == lv.target)
    && (outcome.Some? ==> now.state != L.Pushing)
  }

  lemma OnlyOne(before: L.Lvs, mid: L.Lvs, after: L.Lvs, id: string)
    requires id in before && id in mid && mid == before[id := mid[id]]
    requires id in after && after == mid[id := after[id]]
    ensures after == before[id := after[id]]
  {
  }

  // Attempts on a device that is there, or is not.
  function OnDevice(attempts: seq<Attempt>, up: bool): seq<Attempt> {
    seq(|attempts|, i requires 0 <= i < |attempts| => attempts[i].(opens := attempts[i].opens && up))
  }

  lemma NothingWithoutDevice(n: C.Node, transfer: string, attempts: seq<Attempt>, source: Bytes, up: bool)
    ensures (exists k :: FirstThrough(OnDevice(attempts, up), source, k))
            <==> up && exists k :: FirstThrough(attempts, source, k)
    ensures Steady(n, transfer, attempts) ==> Steady(n, transfer, OnDevice(attempts, up))
  {
    if up {
      assert OnDevice(attempts, up) == attempts;
    }
    forall i | 0 <= i < |attempts| ensures Calm(attempts[i]) ==> Calm(OnDevice(attempts, up)[i]) {
    }
  }

  // A push needs the device, which a volume flagged to be skipped does not get.
  predicate GetsDevice(lv: L.LV) {
    lv.active || !lv.skip
  }

  // The part before the commit: activate, stream, tag COMMITTING.
  method StreamAndMark(c: K.Client, sha: Sha, id: string, target: C.Node, attempts: seq<Attempt>)
      returns (ok: bool, digest: Hash, after: C.Node)
    requires c.Valid() && V.Has(c.lvs, id, {L.Pushing}) && |c.lvs[id].content| < TWO_63
    requires Pushable(sha, target, c.lvs[id].transfer, c.lvs[id].content) && |attempts| == C.PUSH_ATTEMPTS
    modifies c
    ensures c.Valid() && c.reused == old(c.reused) && old(c.trace) <= c.trace && old(c.failed) <= c.failed
    ensures id in c.lvs && c.lvs == old(c.lvs)[id := c.lvs[id]]
    ensures var lv, now := old(c.lvs)[id], c.lvs[id];
            && now.state in {L.Pushing, L.Committing} && now == lv.(state := now.state, active := now.active)
            && Pushable(sha, after, lv.transfer, lv.content)
            && (ok ==> c.failed == old(c.failed) && now.state == L.Committing)
            && (ok ==> Mine(after, lv.transfer) && digest == ContentDigest(sha, lv.content))
            && (ok && Unspoiled(after.inbound.session) ==> Clear(sha, after, lv.transfer, lv.content))
            && (Steady(target, lv.transfer, attempts) && c.failed == old(c.failed) ==>
                  (ok <==> GetsDevice(lv) && exists k :: FirstThrough(attempts, lv.content, k)))
  {
    hide O.Quiet, O.Orderly, K.KeptAlong, Pushable, Clear, Unspoiled, FirstThrough, Steady, Mine;
    after, digest := target, Zeros(HASH_BYTES);
    ok := V.BringUp(c, id, false);
    if !ok {
      return;
    }
    var up := c.lvs[id].active;
    var device := K.DeviceOf(c.lvs[id].content);
    NothingWithoutDevice(target, c.lvs[id].transfer, attempts, device[..], up);
    ok, digest, after := StreamInto(sha, device, target, c.lvs[id].transfer, OnDevice(attempts, up));
    if ok {
      var r := P.MarkCommitting(c, id);
      ok := r.Done?;
    }
  }

  // Retires, reverts, or leaves the volume COMMITTING without its device.
  method Settle(c: K.Client, id: string, outcome: C.Option<CommitOutcome>, queried: C.Option<bool>)
    requires c.Valid() && V.Has(c.lvs, id, {L.Pushing, L.Committing}) && (outcome.Some? ==>
              c.lvs[id].state == L.Committing)
    modifies c
    ensures c.Valid() && c.reused == old(c.reused) && old(c.trace) <= c.trace && old(c.failed) <= c.failed
    ensures id in c.lvs && c.lvs == old(c.lvs)[id := c.lvs[id]]
    ensures PushKeeps(old(c.lvs)[id], c.lvs[id], outcome, queried)
    ensures c.failed == old(c.failed) ==> c.lvs[id] == PushLeaves(old(c.lvs)[id], outcome, queried)
  {
    hide O.Quiet, O.Orderly, K.KeptAlong;
    if Landed(outcome, queried) {
      var _ := P.RetirePushed(c, id);
    } else if NotLanded(outcome, queried) {
      var _ := P.AbortPush(c, id);
    } else {
      var _ := V.SwitchOff(c, id);
    }
  }

  // runPush and finishPush. The commit is only sent from COMMITTING, the volume ends RETIRED only
  // with the volume on the target and READY only without, and after READY a commit that is still
  // on its way finds no transfer, if the abort got there.
  method RunPush(c: K.Client, sha: Sha, id: string, target: C.Node, dials: bool, attempts: seq<Attempt>, rpcs: seq<Rpc>,
                 query: Query, abort: Abort)
      returns (outcome: C.Option<CommitOutcome>, queried: C.Option<bool>, after: C.Node, ghost streamed: C.Node,
               ghost handed: C.Option<Bytes>)
    requires c.Valid() && V.Has(c.lvs, id, {L.Pushing}) && |c.lvs[id].content| < TWO_63
    requires Pushable(sha, target, c.lvs[id].transfer, c.lvs[id].content)
    requires |attempts| == C.PUSH_ATTEMPTS && |rpcs| == C.PUSH_ATTEMPTS
    modifies c
    ensures c.Valid() && c.reused == old(c.reused) && old(c.trace) <= c.trace && old(c.failed) <= c.failed
    ensures id in c.lvs && c.lvs == old(c.lvs)[id := c.lvs[id]]
    ensures PushKeeps(old(c.lvs)[id], c.lvs[id], outcome, queried)
    ensures c.failed == old(c.failed) ==> c.lvs[id] == PushLeaves(old(c.lvs)[id], outcome, queried)
    ensures var lv := old(c.lvs)[id];
            && (outcome.Some? ==>
                  && dials && Pushable(sha, streamed, lv.transfer, lv.content) && Mine(streamed, lv.transfer)
                  && Told(sha, streamed, lv.transfer, ContentDigest(sha, lv.content), rpcs, query, abort,
                          outcome.value, queried, after))
            && (outcome.None? ==> after == if dials then Aborted(streamed, lv.transfer, abort) else target)
            && (outcome.Some? && Unspoiled(streamed.inbound.session) ==> Clear(sha, streamed, lv.transfer, lv.content))
            && (c.lvs[id].state == L.Retired ==>
                  outcome.Some? && HasIt(sha, after, lv.content, Clear(sha, streamed, lv.transfer, lv.content), handed))
            && (c.lvs[id].state == L.Ready ==> !C.Answers(after))
            && (c.lvs[id].state == L.Ready && dials && abort.arrives ==> Closed(after, lv.transfer))
            && (Steady(target, lv.transfer, attempts) && c.failed == old(c.failed) ==>
                  (outcome.Some? <==> dials && GetsDevice(lv) && exists k :: FirstThrough(attempts, lv.content, k)))
  {
    hide O.Quiet, O.Orderly, K.KeptAlong, Pushable, Clear, Unspoiled, FirstThrough, Steady, Mine, HasIt, Closed,
      C.Answers, PushKeeps, Told;
    outcome, queried, after, streamed, handed := C.None, C.None, target, target, C.None;
    ghost var content := c.lvs[id].content;
    var transfer := c.lvs[id].transfer;
    var ready, digest := false, Zeros(HASH_BYTES);
    if dials {
      ready, digest, after := StreamAndMark(c, sha, id, target, attempts);
    }
    streamed := after;
    PushableIsOpen(sha, after, transfer, content);
    if ready {
      outcome, queried, after, handed := CommitAndAsk(sha, after, transfer, content, Clear(sha, after, transfer,
          content), digest, rpcs, query, abort);
    } else if dials {
      AbortCloses(sha, after, transfer, abort);
      after := Aborted(after, transfer, abort);
    }
    ghost var mid := c.lvs;
    Settle(c, id, outcome, queried);
    OnlyOne(old(c.lvs), mid, c.lvs, id);
    PushKeepsOn(old(c.lvs)[id], mid[id], c.lvs[id], outcome, queried);
  }

  lemma PushableIsOpen(sha: Sha, n: C.Node, transfer: string, content: Bytes)
    requires Pushable(sha, n, transfer, content)
    ensures Open(sha, n, transfer) && C.NodeOk(sha, n) && !C.Answers(n)
  {
  }

  lemma PushKeepsOn(lv: L.LV, mid: L.LV, now: L.LV, outcome: C.Option<CommitOutcome>, queried: C.Option<bool>)
    requires lv.state == L.Pushing && mid.state in {L.Pushing, L.Committing}
    requires mid == lv.(state := mid.state, active := mid.active)
    requires PushKeeps(mid, now, outcome, queried)
    ensures PushKeeps(lv, now, outcome, queried)
    ensures PushLeaves(mid, outcome, queried) == PushLeaves(lv, outcome, queried)
    ensures now.state == L.Retired ==> Landed(outcome, queried)
    ensures now.state == L.Ready ==> NotLanded(outcome, queried)
  {
  }

  // ------------------------------------------------------------------------ pushing a snapshot

  datatype SnapshotPush = NotDialled | NotStreamed | Told(outcome: CommitOutcome)

  // The stream of a snapshot: no state on the source changes.
  method StreamSnapshotInto(c: K.Client, sha: Sha, id: string, target: C.Node, transfer: string, attempts: seq<Attempt>)
      returns (ok: bool, digest: Hash, after: C.Node)
    requires c.Valid() && V.Has(c.lvs, id, {L.Snapshot}) && |c.lvs[id].content| < TWO_63
    requires Pushable(sha, target, transfer, c.lvs[id].content) && |attempts| == C.PUSH_ATTEMPTS
    modifies c
    ensures c.Valid() && c.reused == old(c.reused) && old(c.trace) <= c.trace && old(c.failed) <= c.failed
    ensures X.SameButActive(old(c.lvs), c.lvs, id)
    ensures var content := old(c.lvs)[id].content;
            && Pushable(sha, after, transfer, content)
            && (ok ==> Mine(after, transfer) && digest == ContentDigest(sha, content))
            && (ok && Unspoiled(after.inbound.session) ==> Clear(sha, after, transfer, content))
            && (Steady(target, transfer, attempts) && c.failed == old(c.failed) ==>
                  (ok <==> exists k :: FirstThrough(attempts, content, k)))
  {
    hide O.Quiet, O.Orderly, K.KeptAlong, Pushable, Clear, Unspoiled, FirstThrough, Steady, Mine, X.SameButActive;
    after, digest := target, Zeros(HASH_BYTES);
    ok := V.BringUp(c, id, true);
    X.SwitchedOn(old(c.lvs), c.lvs, id);
    if ok {
      var device := c.OpenDevice(id);
      ok, digest, after := StreamInto(sha, device, target, transfer, attempts);
    }
  }

  // runSnapshotPush: copies a pinned snapshot into a prepared transfer. The pin goes on every path,
  // success means the target has the snapshot's content, and the transfer is aborted unless its end
  // is known.
  method RunSnapshotPush(c: K.Client, pins: ExportPins, sha: Sha, id: string, target: C.Node, transfer: string,
                         dials: bool,
                         attempts: seq<Attempt>, rpcs: seq<Rpc>, abort: Abort)
      returns (r: SnapshotPush, after: C.Node, ghost streamed: C.Node, ghost handed: C.Option<Bytes>)
    requires c.Valid() && pins.Valid() && V.Has(c.lvs, id, {L.Snapshot}) && id in pins.readers
    requires |c.lvs[id].content| < TWO_63 && Pushable(sha, target, transfer, c.lvs[id].content)
    requires |attempts| == C.PUSH_ATTEMPTS && |rpcs| == C.PUSH_ATTEMPTS
    modifies c, pins
    ensures c.Valid() && c.reused == old(c.reused) && old(c.trace) <= c.trace && old(c.failed) <= c.failed
    ensures pins.Valid() && pins.readers == old(pins.readers) - multiset{id}
    ensures X.SameButActive(old(c.lvs), c.lvs, id)
    ensures c.failed == old(c.failed) && id !in pins.readers ==> id in c.lvs && !c.lvs[id].active
    ensures r.NotDialled? <==> !dials
    ensures var content := old(c.lvs)[id].content;
            && (r.Told? ==> Mine(streamed, transfer) && (Unspoiled(streamed.inbound.session) ==>
                Clear(sha, streamed, transfer, content)))
            && (r.Told? ==>
                  ToldOnce(sha, streamed, transfer, ContentDigest(sha, content), rpcs, abort, r.outcome, after))
            && (r == SnapshotPush.Told(CommitLanded) ==>
                  HasIt(sha, after, content, Clear(sha, streamed, transfer, content), handed))
            && (r == SnapshotPush.Told(CommitRefused) ==> Closed(after, transfer))
            && (r == SnapshotPush.Told(CommitUnknown) && abort.arrives ==> !Mine(after, transfer))
            && (r.NotStreamed? ==> !C.Answers(after) && (abort.arrives ==> Closed(after, transfer)))
            && (Steady(target, transfer, attempts) && c.failed == old(c.failed) ==>
                  (r.Told? <==> dials && exists k :: FirstThrough(attempts, content, k)))
  {
    hide ExportPins.Valid, O.Quiet, O.Orderly, K.KeptAlong, X.SameButActive, Pushable, Clear, Unspoiled,
      FirstThrough, Steady, Closed, OpenOrLanded, Open, Driven, Inconclusive, ToldOnce;
    r, after, streamed, handed := NotDialled, target, target, C.None;
    ghost var content := c.lvs[id].content;
    X.Released(c.lvs, c.lvs, id);
    if dials {
      var ok, digest;
      ok, digest, after := StreamSnapshotInto(c, sha, id, target, transfer, attempts);
      streamed := after;
      PushableIsOpen(sha, after, transfer, content);
      if ok {
        var outcome;
        outcome, after, handed := CommitOnce(sha, after, transfer, content, digest, rpcs, abort);
        r := SnapshotPush.Told(outcome);
      } else {
        AbortCloses(sha, after, transfer, abort);
        r, after := NotStreamed, Aborted(after, transfer, abort);
      }
    }
    ghost var mid := c.lvs;
    X.ReleaseExport(c, pins, id);
    X.Released(mid, c.lvs, id);
    X.SwitchedTwice(old(c.lvs), mid, c.lvs, id);
  }

  // The target after the talk about a snapshot's commit, and the abort after an unknown outcome.
  ghost predicate ToldOnce(sha: Sha, target: C.Node, transfer: string, digest: Bytes, rpcs: seq<Rpc>, abort: Abort,
                           outcome: CommitOutcome, after: C.Node)
  {
    exists replies, mid ::
      && Talk(sha, target, transfer, digest, rpcs, replies, outcome, mid)
      && after == if outcome.CommitUnknown? then Aborted(mid, transfer, abort) else mid
  }

  // The commit of a snapshot push: an unknown outcome is aborted, not asked about.
  method CommitOnce(sha: Sha, target: C.Node, transfer: string, ghost content: Bytes, digest: Hash, rpcs: seq<Rpc>,
                    abort: Abort)
      returns (outcome: CommitOutcome, after: C.Node, ghost handed: C.Option<Bytes>)
    requires |content| < TWO_64 && digest == ContentDigest(sha, content) && |rpcs| == C.PUSH_ATTEMPTS
    requires Open(sha, target, transfer)
    ensures ToldOnce(sha, target, transfer, digest, rpcs, abort, outcome, after)
    ensures outcome.CommitLanded? ==> HasIt(sha, after, content, Clear(sha, target, transfer, content), handed)
    ensures outcome.CommitRefused? ==> Closed(after, transfer)
    ensures outcome.CommitUnknown? && abort.arrives ==> !Mine(after, transfer)
  {
    hide Clear, Distinguishes, Sound, Inconclusive, Driven, Talk;
    ghost var replies;
    outcome, after, replies, handed := CommitPush(sha, target, transfer, content, Clear(sha, target, transfer,
        content), digest, rpcs);
    ghost var mid := after;
    if outcome.CommitUnknown? {
      after := Aborted(after, transfer, abort);
    }
  }
}
