/** One inbound transfer: frame checks, gap filling and the commit comparison
    (internal/storage/transfers.go, Write and Commit).

    Offsets are uint64 and the frame checks wrap like the source's. Disks may refuse a write or tear
    it. No frame sequence, however produced, is excluded.
  */
module Sessions {
  import opened Digest

  // A device size is a signed seek position.
  type DeviceSize = n: nat | n < TWO_63

  // A finished session leaves the table in the step that ends it, so there is no terminal flag.
  datatype Session = Session(
    volume: string, size: DeviceSize, next: uint64, log: HashLog, streaming: bool, open: bool)

  function NewSession(volume: string, size: DeviceSize): Session {
    Session(volume, size, 0, Empty, false, false)
  }

  // What the disk does with one write. A torn write may leave anything on the device.
  datatype Disk = OpenFails | Torn(after: Bytes) | Stored

  datatype WriteError = Accepted | BadFrame | DiskError

  // A session together with the device behind it.
  datatype Receiver = Receiver(session: Session, device: Bytes) {
    predicate Fits() {
      |device| == session.size
    }
  }

  function NewReceiver(volume: string, size: DeviceSize): Receiver {
    Receiver(NewSession(volume, size), Zeros(size))
  }

  datatype WriteResult = WriteResult(after: Receiver, error: WriteError)

  // The switch at the head of Write, with its wrapping sum.
  predicate Refused(ses: Session, offset: uint64, data: Bytes) {
    var end := (offset + |data|) % TWO_64;
    || offset % CHUNK != 0
    || offset < ses.next
    || end > ses.size
    || |data| == 0 || |data| > CHUNK
    || (|data| < CHUNK && end != ses.size)
  }

  // The zero chunks from one offset up to another. The remaining length wraps below zero.
  function Fill(sha: Sha, log: HashLog, lo: nat, hi: nat, size: nat): HashLog
    decreases hi - lo
  {
    if lo >= hi then log
    else
      var left := if lo <= size then size - lo else TWO_64 - (lo - size) % TWO_64;
      Fill(sha, LogZeroChunk(sha, log, Min(CHUNK, left)), lo + CHUNK, hi, size)
  }

  function Overwrite(device: Bytes, offset: nat, data: Bytes): (b: Bytes)
    requires offset + |data| <= |device|
    ensures |b| == |device|
  {
    device[..offset] + data + device[offset + |data|..]
  }

  // The hash stream grows before the disk write, the offset only after it. A position beyond the
  // signed range is negative to the file and always fails.
  function WriteFrame(sha: Sha, rcv: Receiver, offset: uint64, data: Bytes, disk: Disk): (r: WriteResult)
    requires rcv.Fits()
    ensures r.after.Fits() && r.after.session.size == rcv.session.size
  {
    var ses := rcv.session;
    if Refused(ses, offset, data) then
      WriteResult(rcv, BadFrame)
    else if !ses.open && disk.OpenFails? then
      WriteResult(rcv, DiskError)
    else
      var log := LogChunk(sha, Fill(sha, ses.log, ses.next, offset, ses.size), data);
      var hashed := ses.(open := true, log := log);
      if disk.Stored? && offset < TWO_63 then
        WriteResult(Receiver(hashed.(next := offset + |data|), Overwrite(rcv.device, offset, data)), Accepted)
      else if disk.Torn? && |disk.after| == |rcv.device| then
        WriteResult(Receiver(hashed, disk.after), DiskError)
      else
        WriteResult(Receiver(hashed, rcv.device), DiskError)
  }

  // The tail fill of Commit.
  function Seal(sha: Sha, ses: Session): HashLog {
    Fill(sha, ses.log, ses.next, ses.size, ses.size)
  }

  predicate Accepts(sha: Sha, ses: Session, digest: Bytes) {
    SumOf(sha, Seal(sha, ses), ses.size) == digest
  }

  // ----------------------------------------------------------------------------- the invariant

  predicate ZeroFrom(device: Bytes, from: nat) {
    forall i :: from <= i < |device| ==> device[i] == 0
  }

  // The hash stream is the log of what is on the device, and nothing lies beyond the offset.
  predicate Faithful(sha: Sha, rcv: Receiver)
    requires rcv.Fits() && rcv.session.next <= rcv.session.size
  {
    && rcv.session.log == Log(sha, rcv.device, NumChunks(rcv.session.next))
    && ZeroFrom(rcv.device, rcv.session.next)
  }

  // No write of this session has failed.
  predicate Unspoiled(ses: Session) {
    ses.log.Count() == NumChunks(ses.next)
  }

  // The stream never holds fewer hashes than the offset calls for, and with exactly that many the
  // device is what was hashed. A surplus hash, once there, marks a write that failed.
  predicate Sound(sha: Sha, rcv: Receiver) {
    var ses := rcv.session;
    && rcv.Fits()
    && ses.next <= ses.size
    && (ses.next % CHUNK == 0 || ses.next == ses.size)
    && ses.log.Count() >= NumChunks(ses.next)
    && (Unspoiled(ses) ==> Faithful(sha, rcv))
  }

  lemma NewReceiverSound(sha: Sha, volume: string, size: DeviceSize)
    ensures Sound(sha, NewReceiver(volume, size)) && Unspoiled(NewReceiver(volume, size).session)
  {
  }

  lemma {:induction false} FillCount(sha: Sha, log: HashLog, lo: nat, hi: nat, size: nat)
    ensures Fill(sha, log, lo, hi, size).Count() == log.Count() + if lo < hi then NumChunks(hi - lo) else 0
    decreases if lo < hi then hi - lo else 0
  {
    if lo < hi {
      var left := if lo <= size then size - lo else TWO_64 - (lo - size) % TWO_64;
      FillCount(sha, LogZeroChunk(sha, log, Min(CHUNK, left)), lo + CHUNK, hi, size);
    }
  }

  // A zero chunk enters the stream the same way whether it is skipped or hashed from its bytes.
  lemma ZeroChunkLogged(sha: Sha, device: Bytes, k: nat)
    requires k < NumChunks(|device|) && AllZero(Chunk(device, k))
    ensures LogZeroChunk(sha, Log(sha, device, k), Min(CHUNK, |device| - k * CHUNK)) == Log(sha, device, k + 1)
  {
    assert Chunk(device, k) == Zeros(Min(CHUNK, |device| - k * CHUNK));
  }

  // One zero chunk of the gap.
  lemma FillStep(sha: Sha, device: Bytes, k: nat, hi: nat)
    requires hi <= |device| && k * CHUNK < hi && (hi % CHUNK == 0 || hi == |device|)
    requires forall i :: k * CHUNK <= i < hi ==> device[i] == 0
    ensures k < NumChunks(hi) <= NumChunks(|device|)
    ensures Fill(sha, Log(sha, device, k), k * CHUNK, hi, |device|)
            == Fill(sha, Log(sha, device, k + 1), (k + 1) * CHUNK, hi, |device|)
  {
    hide Log;
    ZeroChunkLogged(sha, device, k);
  }

  // Filling over zero chunks of the device is hashing those chunks.
  lemma {:induction false} FillIsLog(sha: Sha, device: Bytes, k: nat, hi: nat)
    requires k <= NumChunks(hi) && hi <= |device| && (hi % CHUNK == 0 || hi == |device|)
    requires forall i :: k * CHUNK <= i < hi ==> device[i] == 0
    ensures NumChunks(hi) <= NumChunks(|device|)
    ensures Fill(sha, Log(sha, device, k), k * CHUNK, hi, |device|) == Log(sha, device, NumChunks(hi))
    decreases NumChunks(hi) - k
  {
    if k * CHUNK < hi {
      hide Fill, Log;
      FillStep(sha, device, k, hi);
      FillIsLog(sha, device, k + 1, hi);
    }
  }

  // Bytes at and beyond an offset play no part in the log of the chunks before it.
  lemma LogIgnoresTail(sha: Sha, a: Bytes, b: Bytes, n: nat)
    requires |a| == |b| && n <= |a| && n % CHUNK == 0 && a[..n] == b[..n]
    ensures Log(sha, a, n / CHUNK) == Log(sha, b, n / CHUNK)
  {
    SamePrefixSameChunks(a, b, n, n / CHUNK);
    LogDependsOnChunks(sha, a, b, n / CHUNK);
  }

  // An accepted frame is aligned, in bounds, past everything before it, and the next offset is
  // its end.
  lemma AcceptedFrame(sha: Sha, rcv: Receiver, offset: uint64, data: Bytes, disk: Disk)
    requires Sound(sha, rcv)
    requires WriteFrame(sha, rcv, offset, data, disk).error.Accepted?
    ensures rcv.session.next <= offset && offset % CHUNK == 0 && offset + |data| <= rcv.session.size
    ensures rcv.session.next % CHUNK == 0 && rcv.session.next < rcv.session.size
    ensures 0 < |data| <= CHUNK && (|data| == CHUNK || offset + |data| == rcv.session.size)
    ensures WriteFrame(sha, rcv, offset, data, disk).after.session.next == offset + |data|
    ensures NumChunks(offset + |data|) == offset / CHUNK + 1
  {
  }

  // With a working disk a frame is taken exactly when it starts at an aligned offset not behind the
  // session's, has a chunk's length or ends the device, and stays in bounds. Its bytes are then on
  // the device and no others changed.
  lemma FrameAcceptedIff(sha: Sha, rcv: Receiver, offset: uint64, data: Bytes)
    requires Sound(sha, rcv)
    ensures var w, size := WriteFrame(sha, rcv, offset, data, Stored), rcv.session.size;
            && (w.error.Accepted? <==>
                && offset % CHUNK == 0 && rcv.session.next <= offset && offset + |data| <= size
                && (|data| == CHUNK || (0 < |data| < CHUNK && offset + |data| == size)))
            && (w.error.Accepted? ==>
                  w.after.session.next == offset + |data| && w.after.device[offset..offset + |data|] == data)
            && |w.after.device| == size
            && forall i :: 0 <= i < size && !(w.error.Accepted? && offset <= i < offset + |data|) ==>
                 w.after.device[i] == rcv.device[i]
  {
    if WriteFrame(sha, rcv, offset, data, Stored).error.Accepted? {
      AcceptedFrame(sha, rcv, offset, data, Stored);
    }
  }

  // Storing a whole chunk, or the last short one, appends its hash to the log before it.
  lemma OverwriteLogged(sha: Sha, device: Bytes, k: nat, data: Bytes)
    requires 0 < |data| <= CHUNK && k * CHUNK + |data| <= |device|
    requires |data| == CHUNK || k * CHUNK + |data| == |device|
    ensures var after := Overwrite(device, k * CHUNK, data);
            Log(sha, after, k + 1) == LogChunk(sha, Log(sha, device, k), data)
  {
    var after := Overwrite(device, k * CHUNK, data);
    assert after[..k * CHUNK] == device[..k * CHUNK];
    LogIgnoresTail(sha, device, after, k * CHUNK);
    assert Chunk(after, k) == data;
  }

  // An accepted frame on an unspoiled session keeps the stream the log of the device.
  lemma AcceptedKeepsFaithful(sha: Sha, rcv: Receiver, offset: uint64, data: Bytes, disk: Disk)
    requires Sound(sha, rcv) && Unspoiled(rcv.session)
    requires WriteFrame(sha, rcv, offset, data, disk).error.Accepted?
    ensures var after := WriteFrame(sha, rcv, offset, data, disk).after;
            after.session.next <= after.session.size && Faithful(sha, after)
  {
    AcceptedFrame(sha, rcv, offset, data, disk);
    var ses, after := rcv.session, WriteFrame(sha, rcv, offset, data, disk).after;
    hide Fill, Log;
    GapIsLog(sha, rcv, offset);
    OverwriteLogged(sha, rcv.device, offset / CHUNK, data);
  }

  // The gap before an aligned offset, filled.
  lemma GapIsLog(sha: Sha, rcv: Receiver, offset: nat)
    requires Sound(sha, rcv) && Unspoiled(rcv.session)
    requires rcv.session.next <= offset <= rcv.session.size && rcv.session.next % CHUNK == 0 && offset % CHUNK == 0
    ensures offset / CHUNK <= NumChunks(|rcv.device|)
    ensures Fill(sha, rcv.session.log, rcv.session.next, offset, rcv.session.size)
              == Log(sha, rcv.device, offset / CHUNK)
  {
    hide Fill, Log;
    var j := rcv.session.next / CHUNK;
    assert rcv.session.next == j * CHUNK && NumChunks(rcv.session.next) == j && NumChunks(offset) == offset / CHUNK;
    FillIsLog(sha, rcv.device, j, offset);
  }

  // An accepted frame adds as many hashes as it moves the offset.
  lemma AcceptedCount(sha: Sha, rcv: Receiver, offset: uint64, data: Bytes, disk: Disk)
    requires Sound(sha, rcv)
    requires WriteFrame(sha, rcv, offset, data, disk).error.Accepted?
    ensures var ses, after := rcv.session, WriteFrame(sha, rcv, offset, data, disk).after.session;
            after.log.Count() - NumChunks(after.next) == ses.log.Count() - NumChunks(ses.next)
  {
    AcceptedFrame(sha, rcv, offset, data, disk);
    FillCount(sha, rcv.session.log, rcv.session.next, offset, rcv.session.size);
  }

  // A write that was hashed and then failed leaves a surplus hash.
  lemma FailedWriteSpoils(sha: Sha, rcv: Receiver, offset: uint64, data: Bytes, disk: Disk)
    requires Sound(sha, rcv)
    requires WriteFrame(sha, rcv, offset, data, disk).error.DiskError?
    requires rcv.session.open || !disk.OpenFails?
    ensures var after := WriteFrame(sha, rcv, offset, data, disk).after;
            Sound(sha, after) && !Unspoiled(after.session)
  {
    FillCount(sha, rcv.session.log, rcv.session.next, offset, rcv.session.size);
  }

  // Every outcome of a write keeps the invariant. A failed one spoils the session for good.
  lemma WriteKeepsSound(sha: Sha, rcv: Receiver, offset: uint64, data: Bytes, disk: Disk)
    requires Sound(sha, rcv)
    ensures var r := WriteFrame(sha, rcv, offset, data, disk);
            && Sound(sha, r.after)
            && (r.error.Accepted? ==> (Unspoiled(r.after.session) <==> Unspoiled(rcv.session)))
            && (Unspoiled(r.after.session) ==> Unspoiled(rcv.session))
            && (r.error.DiskError? && (rcv.session.open || !disk.OpenFails?) ==> !Unspoiled(r.after.session))
  {
    var r := WriteFrame(sha, rcv, offset, data, disk);
    if r.error.Accepted? {
      AcceptedFrame(sha, rcv, offset, data, disk);
      AcceptedCount(sha, rcv, offset, data, disk);
      if Unspoiled(rcv.session) {
        AcceptedKeepsFaithful(sha, rcv, offset, data, disk);
      }
    } else if r.error.DiskError? && (rcv.session.open || !disk.OpenFails?) {
      FailedWriteSpoils(sha, rcv, offset, data, disk);
    }
  }

  // ----------------------------------------------------------------------------------- commit

  lemma SealCount(sha: Sha, rcv: Receiver)
    requires Sound(sha, rcv)
    ensures var ses := rcv.session;
            Seal(sha, ses).Count() - NumChunks(ses.size) == ses.log.Count() - NumChunks(ses.next)
  {
    FillCount(sha, rcv.session.log, rcv.session.next, rcv.session.size, rcv.session.size);
  }

  // Whatever was framed and whatever was skipped, the sealed stream of an unspoiled session is the
  // log of the device: the digest does not depend on the framing.
  lemma SealIsContentLog(sha: Sha, rcv: Receiver)
    requires Sound(sha, rcv) && Unspoiled(rcv.session)
    ensures Seal(sha, rcv.session) == Log(sha, rcv.device, NumChunks(rcv.session.size))
    ensures SumOf(sha, Seal(sha, rcv.session), rcv.session.size) == ContentDigest(sha, rcv.device)
  {
    if rcv.session.next < rcv.session.size {
      FillIsLog(sha, rcv.device, rcv.session.next / CHUNK, rcv.session.size);
    }
  }

  // Commit accepts the digest of a content exactly when no write failed and the device holds that
  // content, size included.
  lemma CommitAcceptsIff(sha: Sha, rcv: Receiver, content: Bytes)
    requires Sound(sha, rcv) && |content| < TWO_64
    requires Distinguishes(sha, Seal(sha, rcv.session), rcv.device, content)
    ensures Accepts(sha, rcv.session, ContentDigest(sha, content))
            <==> Unspoiled(rcv.session) && rcv.device == content
  {
    if Accepts(sha, rcv.session, ContentDigest(sha, content)) {
      DigestBindsLogAndSize(sha, Seal(sha, rcv.session), rcv.session.size, content);
      SealCount(sha, rcv);
      SealIsContentLog(sha, rcv);
      LogInjective(sha, rcv.device, content, NumChunks(rcv.session.size));
      ChunksDetermineContent(rcv.device, content);
    } else if Unspoiled(rcv.session) && rcv.device == content {
      SealIsContentLog(sha, rcv);
    }
  }

  // ------------------------------------------------------------------- whole frame sequences

  datatype Write = Write(offset: uint64, data: Bytes, disk: Disk)

  function WriteAll(sha: Sha, rcv: Receiver, writes: seq<Write>): (r: Receiver)
    requires rcv.Fits()
    ensures r.Fits() && r.session.size == rcv.session.size
    decreases |writes|
  {
    if writes == [] then rcv
    else WriteAll(sha, WriteFrame(sha, rcv, writes[0].offset, writes[0].data, writes[0].disk).after, writes[1..])
  }

  datatype Span = Span(lo: nat, hi: nat)

  // The byte ranges of the frames that were accepted.
  function AcceptedSpans(sha: Sha, rcv: Receiver, writes: seq<Write>): seq<Span>
    requires rcv.Fits()
    decreases |writes|
  {
    if writes == [] then []
    else
      var w := writes[0];
      var r := WriteFrame(sha, rcv, w.offset, w.data, w.disk);
      (if r.error.Accepted? then [Span(w.offset, w.offset + |w.data|)] else [])
      + AcceptedSpans(sha, r.after, writes[1..])
  }

  // Aligned, in bounds, whole chunks but for a last short one, and strictly increasing.
  predicate Disciplined(spans: seq<Span>, start: nat, size: nat) {
    spans == [] ||
    (&& start <= spans[0].lo < spans[0].hi <= size
     && spans[0].lo % CHUNK == 0
     && (spans[0].hi - spans[0].lo == CHUNK || spans[0].hi == size)
     && Disciplined(spans[1..], spans[0].hi, size))
  }

  // Over any sequence of frames and disk faults the invariant holds, and the accepted frames are
  // disciplined.
  lemma {:induction false} FrameDiscipline(sha: Sha, rcv: Receiver, writes: seq<Write>)
    requires Sound(sha, rcv)
    ensures var after := WriteAll(sha, rcv, writes);
            && Sound(sha, after)
            && (Unspoiled(after.session) ==> Unspoiled(rcv.session))
            && after.session.next >= rcv.session.next
    ensures Disciplined(AcceptedSpans(sha, rcv, writes), rcv.session.next, rcv.session.size)
    decreases |writes|
  {
    if writes != [] {
      var w := writes[0];
      var r := WriteFrame(sha, rcv, w.offset, w.data, w.disk);
      WriteKeepsSound(sha, rcv, w.offset, w.data, w.disk);
      FrameDiscipline(sha, r.after, writes[1..]);
      var rest := AcceptedSpans(sha, r.after, writes[1..]);
      if r.error.Accepted? {
        AcceptedFrame(sha, rcv, w.offset, w.data, w.disk);
        var spans := [Span(w.offset, w.offset + |w.data|)] + rest;
        assert spans[1..] == rest;
      } else {
        assert [] + rest == rest;
      }
    }
  }

  // Once the size is reached no further frame is accepted.
  lemma NothingAfterTheEnd(sha: Sha, rcv: Receiver, offset: uint64, data: Bytes, disk: Disk)
    requires Sound(sha, rcv) && rcv.session.next == rcv.session.size
    ensures !WriteFrame(sha, rcv, offset, data, disk).error.Accepted?
  {
    if WriteFrame(sha, rcv, offset, data, disk).error.Accepted? {
      AcceptedFrame(sha, rcv, offset, data, disk);
      assert false;
    }
  }

  // A fresh transfer, any frames from anyone, any disk faults: if commit accepts the digest of a
  // content, the device holds exactly that content.
  lemma CommitSound(sha: Sha, volume: string, size: DeviceSize, writes: seq<Write>, content: Bytes)
    requires |content| < TWO_64
    requires var r := WriteAll(sha, NewReceiver(volume, size), writes);
             && Distinguishes(sha, Seal(sha, r.session), r.device, content)
             && Accepts(sha, r.session, ContentDigest(sha, content))
    ensures WriteAll(sha, NewReceiver(volume, size), writes).device == content
  {
    FrameDiscipline(sha, NewReceiver(volume, size), writes);
    CommitAcceptsIff(sha, WriteAll(sha, NewReceiver(volume, size), writes), content);
  }
}
