/** The sending side of a transfer: one stream attempt and its resumption after a cut
    (internal/api/push.go, streamOnce and streamVolume).
  */
module Stream {
  import opened Digest
  import opened Sessions
  import opened Reader

  // What one chunk of the source does to the receiver: zero chunks are never sent, chunks before
  // the queried offset are skipped.
  function StreamChunk(sha: Sha, source: Bytes, rcv: Receiver, start: nat, k: nat): (r: Receiver)
    requires rcv.Fits() && k < NumChunks(|source|) && |source| < TWO_63
    ensures r.Fits() && r.session.size == rcv.session.size
  {
    if AllZero(Chunk(source, k)) || k * CHUNK < start then rcv
    else WriteFrame(sha, rcv, k * CHUNK, Chunk(source, k), Stored).after
  }

  // The receiver after a stream that queried offset `start` got through the first k chunks.
  function StreamTo(sha: Sha, source: Bytes, rcv: Receiver, start: nat, k: nat): (r: Receiver)
    requires rcv.Fits() && k <= NumChunks(|source|) && |source| < TWO_63
    ensures r.Fits() && r.session.size == rcv.session.size
  {
    if k == 0 then rcv
    else StreamChunk(sha, source, StreamTo(sha, source, rcv, start, k - 1), start, k - 1)
  }

  // The receiver holds the source up to its next offset and zeros beyond.
  predicate Synced(sha: Sha, source: Bytes, rcv: Receiver) {
    && |source| == rcv.session.size
    && Sound(sha, rcv) && Unspoiled(rcv.session)
    && rcv.device == Head(source, rcv.session.next)
  }

  lemma FreshSynced(sha: Sha, source: Bytes, volume: string)
    requires |source| < TWO_63
    ensures Synced(sha, source, NewReceiver(volume, |source|))
  {
    assert Head(source, 0) == Zeros(|source|);
  }

  // The next chunk to be sent lies beyond everything received, across zeros only.
  ghost predicate Between(source: Bytes, ses: Session, start: nat, k: nat) {
    && ses.next <= |source|
    && start <= ses.next
    && (ses.next <= k * CHUNK || ses.next == start)
    && var pos := Min(k * CHUNK, |source|);
       ses.next <= pos ==> Head(source, ses.next) == Head(source, pos)
  }

  // Sending one non-zero chunk: it is accepted and the receiver stays synced.
  lemma SendChunk(sha: Sha, source: Bytes, rcv: Receiver, start: nat, k: nat)
    requires k < NumChunks(|source|) && |source| < TWO_63
    requires Synced(sha, source, rcv) && Between(source, rcv.session, start, k)
    requires start <= k * CHUNK
    ensures var w := WriteFrame(sha, rcv, k * CHUNK, Chunk(source, k), Stored);
            && w.error.Accepted?
            && Synced(sha, source, w.after)
            && w.after.session.next == Min((k + 1) * CHUNK, |source|)
  {
    assert !Refused(rcv.session, k * CHUNK, Chunk(source, k));
    HeadGrows(source, k);
    WriteKeepsSound(sha, rcv, k * CHUNK, Chunk(source, k), Stored);
  }

  lemma SkipZeroChunk(source: Bytes, ses: Session, start: nat, k: nat)
    requires k < NumChunks(|source|) && Between(source, ses, start, k) && AllZero(Chunk(source, k))
    requires start % CHUNK == 0 || start == |source|
    ensures Between(source, ses, start, k + 1)
  {
    HeadGrows(source, k);
  }

  lemma SkipSentChunk(source: Bytes, ses: Session, start: nat, k: nat)
    requires k < NumChunks(|source|) && Between(source, ses, start, k)
    requires k * CHUNK < start && (start % CHUNK == 0 || start == |source|)
    ensures Between(source, ses, start, k + 1)
  {
    assert start >= Min((k + 1) * CHUNK, |source|);
  }

  lemma ChunkKeepsSynced(sha: Sha, source: Bytes, rcv: Receiver, start: nat, k: nat)
    requires k < NumChunks(|source|) && |source| < TWO_63
    requires Synced(sha, source, rcv) && Between(source, rcv.session, start, k)
    requires start % CHUNK == 0 || start == |source|
    ensures var r := StreamChunk(sha, source, rcv, start, k);
            Synced(sha, source, r) && Between(source, r.session, start, k + 1)
  {
    if AllZero(Chunk(source, k)) {
      SkipZeroChunk(source, rcv.session, start, k);
    } else if k * CHUNK < start {
      SkipSentChunk(source, rcv.session, start, k);
    } else {
      SendChunk(sha, source, rcv, start, k);
    }
  }

  lemma SyncedFits(sha: Sha, source: Bytes, rcv: Receiver)
    requires Synced(sha, source, rcv)
    ensures rcv.Fits() && |source| == rcv.session.size
    ensures rcv.session.next % CHUNK == 0 || rcv.session.next == |source|
  {
  }

  lemma NothingSent(sha: Sha, source: Bytes, rcv: Receiver)
    requires Synced(sha, source, rcv)
    ensures Between(source, rcv.session, rcv.session.next, 0)
  {
  }

  // However far a stream gets before it is cut, the receiver stays synced.
  lemma {:induction false} StreamKeepsSynced(sha: Sha, source: Bytes, rcv: Receiver, k: nat)
    requires k <= NumChunks(|source|) && |source| < TWO_63
    requires Synced(sha, source, rcv)
    ensures var r := StreamTo(sha, source, rcv, rcv.session.next, k);
            Synced(sha, source, r) && Between(source, r.session, rcv.session.next, k)
  {
    hide Synced, Between, StreamChunk, NumChunks;
    SyncedFits(sha, source, rcv);
    if k == 0 {
      NothingSent(sha, source, rcv);
    } else {
      StreamKeepsSynced(sha, source, rcv, k - 1);
      ChunkKeepsSynced(sha, source, StreamTo(sha, source, rcv, rcv.session.next, k - 1), rcv.session.next, k - 1);
    }
  }

  // Any number of attempts, each cut after any chunk. Every attempt queries the offset afresh.
  function Attempts(sha: Sha, source: Bytes, rcv: Receiver, cuts: seq<nat>): (r: Receiver)
    requires rcv.Fits() && |source| < TWO_63
    requires forall i :: 0 <= i < |cuts| ==> cuts[i] <= NumChunks(|source|)
    ensures r.Fits() && r.session.size == rcv.session.size
    decreases |cuts|
  {
    if cuts == [] then rcv
    else
      var r := StreamTo(sha, source, rcv, rcv.session.next, cuts[0]);
      Attempts(sha, source, r, cuts[1..])
  }

  lemma {:induction false} AttemptsKeepSynced(sha: Sha, source: Bytes, rcv: Receiver, cuts: seq<nat>)
    requires |source| < TWO_63
    requires forall i :: 0 <= i < |cuts| ==> cuts[i] <= NumChunks(|source|)
    requires Synced(sha, source, rcv)
    ensures var r := Attempts(sha, source, rcv, cuts);
            Synced(sha, source, r)
    decreases |cuts|
  {
    if cuts != [] {
      StreamKeepsSynced(sha, source, rcv, cuts[0]);
      var r := StreamTo(sha, source, rcv, rcv.session.next, cuts[0]);
      AttemptsKeepSynced(sha, source, r, cuts[1..]);
    }
  }

  // A stream that runs to the end leaves the receiver with the source's bytes and an accepting
  // commit.
  lemma FullStream(sha: Sha, source: Bytes, rcv: Receiver)
    requires |source| < TWO_63 && Synced(sha, source, rcv)
    ensures var r := StreamTo(sha, source, rcv, rcv.session.next, NumChunks(|source|));
            && Synced(sha, source, r)
            && r.device == source
            && Accepts(sha, r.session, ContentDigest(sha, source))
  {
    StreamKeepsSynced(sha, source, rcv, NumChunks(|source|));
    var r := StreamTo(sha, source, rcv, rcv.session.next, NumChunks(|source|));
    assert Head(source, r.session.next) == source;
    SealIsContentLog(sha, r);
  }

  // Resume correctness: after any number of cut attempts, one attempt that completes delivers the
  // source and both sides hold the same digest.
  lemma ResumeCorrect(sha: Sha, source: Bytes, volume: string, cuts: seq<nat>)
    requires |source| < TWO_63
    requires forall i :: 0 <= i < |cuts| ==> cuts[i] <= NumChunks(|source|)
    ensures var r := Attempts(sha, source, NewReceiver(volume, |source|), cuts + [NumChunks(|source|)]);
            r.device == source && Accepts(sha, r.session, ContentDigest(sha, source))
  {
    FreshSynced(sha, source, volume);
    AttemptsKeepSynced(sha, source, NewReceiver(volume, |source|), cuts);
    AttemptsLast(sha, source, NewReceiver(volume, |source|), cuts, NumChunks(|source|));
    var r := Attempts(sha, source, NewReceiver(volume, |source|), cuts);
    FullStream(sha, source, r);
  }

  lemma {:induction false} AttemptsLast(sha: Sha, source: Bytes, rcv: Receiver, cuts: seq<nat>, last: nat)
    requires rcv.Fits() && |source| < TWO_63 && last <= NumChunks(|source|)
    requires forall i :: 0 <= i < |cuts| ==> cuts[i] <= NumChunks(|source|)
    ensures var r := Attempts(sha, source, rcv, cuts);
            Attempts(sha, source, rcv, cuts + [last]) == StreamTo(sha, source, r, r.session.next, last)
    decreases |cuts|
  {
    if cuts == [] {
      assert (cuts + [last])[1..] == [];
    } else {
      var r := StreamTo(sha, source, rcv, rcv.session.next, cuts[0]);
      assert (cuts + [last])[1..] == cuts[1..] + [last];
      AttemptsLast(sha, source, r, cuts[1..], last);
    }
  }
}
