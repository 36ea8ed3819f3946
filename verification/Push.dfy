/** The loops of a push against its target (internal/api/push.go): one stream, its bounded retries, the
    bounded commit retries, and how the target's errors reach them (transferError in
    internal/api/api.go).
  */
module Push {
  import opened Digest
  import opened Sessions
  import opened Reader
  import opened Stream
  import C = Cluster
  import L = Lvm
  import T = TransferTable

  // The gRPC codes of the target's answers, of a broken connection, and of an error without one.
  datatype Code = OK | Unknown | InvalidArgument | NotFound | AlreadyExists | FailedPrecondition | ResourceExhausted
                | Aborted | DataLoss | Internal | Unavailable

  // transferError.
  function CodeOf(answer: T.Answer): Code {
    match answer
    case Ok => OK
    case TransferLimit => ResourceExhausted
    case TransferUsed => AlreadyExists
    case TransferUnknown => NotFound
    case TransferBusy => Aborted
    case Framed(Accepted) => OK
    case Framed(BadFrame) => InvalidArgument
    case Framed(DiskError) => Internal
    case DigestMismatch => DataLoss
    case Failed => Internal
  }

  // Refusals that a retry cannot change.
  predicate Definitive(code: Code) {
    code in {NotFound, InvalidArgument, AlreadyExists, FailedPrecondition, DataLoss}
  }

  // What commitPush makes of a code, Unavailable being a lost request or answer.
  function ReplyOf(code: Code): C.Option<C.Reply> {
    match code
    case OK => C.Some(C.Ok)
    case DataLoss => C.Some(C.DataLoss)
    case NotFound => C.Some(C.NotFound)
    case Aborted => C.Some(C.Busy)
    case Unavailable => C.None
    case _ => C.Some(C.Internal)
  }

  // The target's answer to a commit survives its two translations: OK means it landed, DataLoss
  // means the digest was refused and the session is gone, NotFound means there is no session. A
  // stream gives up on a refused frame, not on one the disk failed.
  lemma CommitAnswersMeanWhatTheySay(answer: T.Answer)
    ensures ReplyOf(CodeOf(answer)) == C.Some(C.Ok) <==> answer.Ok? || answer == T.Framed(Accepted)
    ensures ReplyOf(CodeOf(answer)) == C.Some(C.DataLoss) <==> answer.DigestMismatch?
    ensures ReplyOf(CodeOf(answer)) == C.Some(C.NotFound) <==> answer.TransferUnknown?
    ensures Definitive(CodeOf(answer))
            <==> answer in {T.DigestMismatch, T.TransferUnknown, T.TransferUsed, T.Framed(BadFrame)}
  {
  }

  // ------------------------------------------------------------------------------- the stream

  // Frames handed to the receiver one by one, those before the queried offset left out.
  function SendAll(sha: Sha, rcv: Receiver, start: nat, frames: seq<Frame>): (r: Receiver)
    requires rcv.Fits() && FramesFit(frames, rcv.session.size)
    ensures r.Fits() && r.session.size == rcv.session.size
  {
    if frames == [] then rcv
    else
      var last := |frames| - 1;
      var before := SendAll(sha, rcv, start, frames[..last]);
      if frames[last].offset < start then before
      else WriteFrame(sha, before, frames[last].offset, frames[last].data, Stored).after
  }

  // Sending the frames of the first chunks is the chunk by chunk stream.
  lemma {:induction false} SendingFrames(sha: Sha, source: Bytes, rcv: Receiver, start: nat, k: nat)
    requires rcv.Fits() && k <= NumChunks(|source|) && |source| < TWO_63 && |source| == rcv.session.size
    ensures FramesFit(Frames(source, k), |source|)
    ensures SendAll(sha, rcv, start, Frames(source, k)) == StreamTo(sha, source, rcv, start, k)
  {
    FramesInBounds(source, k);
    if k > 0 {
      SendingFrames(sha, source, rcv, start, k - 1);
      var frames := Frames(source, k);
      if AllZero(Chunk(source, k - 1)) {
        assert frames == Frames(source, k - 1);
      } else {
        assert frames[..|frames| - 1] == Frames(source, k - 1);
      }
    }
  }

  // Each prefix of the frames is the frames of some first chunks, and what follows is a non-zero chunk.
  lemma {:induction false} FramesPrefix(content: Bytes, k: nat, stop: nat) returns (j: nat)
    requires k <= NumChunks(|content|) && stop < |Frames(content, k)|
    ensures j < k && Frames(content, k)[..stop] == Frames(content, j)
    ensures !AllZero(Chunk(content, j)) && Frames(content, k)[stop] == Frame(j * CHUNK, Chunk(content, j))
  {
    var frames := Frames(content, k);
    if AllZero(Chunk(content, k - 1)) {
      assert frames == Frames(content, k - 1);
      j := FramesPrefix(content, k - 1, stop);
    } else if stop == |frames| - 1 {
      j := k - 1;
      assert frames[..stop] == Frames(content, j);
    } else {
      j := FramesPrefix(content, k - 1, stop);
      assert frames[..stop] == Frames(content, k - 1)[..stop];
    }
  }

  // How one attempt fares: whether the query is answered and the stream gets its slot, how many
  // chunks of an earlier stream the target still takes in between, whether the device opens and how
  // much of it can be read, how many frames go out, what the target's disk does with each, whether
  // the close is answered, and the code of a call that fails otherwise.
  datatype Attempt = Attempt(
    starts: bool, late: nat, opens: bool, readable: nat, sends: nat, disk: nat -> Disk, closes: bool, code: Code)

  // The attempt gets through, as far as the source and the network go.
  predicate Through(attempt: Attempt, source: Bytes) {
    && attempt.starts && attempt.opens && attempt.closes
    && NumChunks(|source|) <= attempt.readable && |Frames(source, NumChunks(|source|))| <= attempt.sends
  }

  // The source's own device fails before a frame does.
  predicate DeviceFails(attempt: Attempt, source: Bytes) {
    || !attempt.opens
    || (attempt.readable < NumChunks(|source|) && |Frames(source, attempt.readable)| <= attempt.sends)
  }

  // The code of an attempt no frame of which the target refuses.
  function FailureOf(attempt: Attempt, source: Bytes): Code {
    if attempt.starts && DeviceFails(attempt, source) then Unknown else attempt.code
  }

  // How an attempt ends, given how the target took the last frame it got: the close hands its answer
  // to the source, which otherwise hears of its own device or of the broken call.
  predicate Explains(attempt: Attempt, source: Bytes, last: WriteError, ok: bool, code: Code) {
    match last
    case Accepted =>
      && (ok <==> attempt.starts && attempt.opens && attempt.closes && NumChunks(|source|) <= attempt.readable
                  && |Frames(source, NumChunks(|source|))| <= attempt.sends)
      && code == if ok then OK else FailureOf(attempt, source)
    case BadFrame => attempt.starts && !ok && code == if attempt.closes then InvalidArgument else attempt.code
    case DiskError => attempt.starts && !ok && code == if attempt.closes then Internal else attempt.code
  }

  // The target's disk works and nothing of an earlier stream comes late.
  ghost predicate Calm(attempt: Attempt) {
    attempt.late == 0 && forall i :: attempt.disk(i).Stored?
  }

  // The receiver of a push. While no write has failed it holds the source up to its next offset.
  predicate Tracks(sha: Sha, source: Bytes, rcv: Receiver) {
    && |source| == rcv.session.size && Sound(sha, rcv)
    && (Unspoiled(rcv.session) ==> Synced(sha, source, rcv))
  }

  // Hands frames to the receiver until one is refused or not written.
  method Deliver(sha: Sha, rcv: Receiver, start: nat, frames: seq<Frame>, disk: nat -> Disk)
      returns (last: WriteError, after: Receiver, ghost stop: nat)
    requires Sound(sha, rcv) && FramesFit(frames, rcv.session.size) && rcv.session.size < TWO_63
    ensures last.DiskError? ==> !disk(stop).Stored?
    ensures stop <= |frames| && (last.Accepted? <==> stop == |frames|) && FramesFit(frames[..stop], rcv.session.size)
    ensures last.Accepted? ==> after == SendAll(sha, rcv, start, frames)
    ensures forall i :: 0 <= i < stop ==> FramesFit(frames[..i], rcv.session.size) && Passes(sha, rcv, start, frames, i)
    ensures !last.Accepted? ==>
              && frames[stop].offset >= start
              && var w := WriteFrame(sha, SendAll(sha, rcv, start, frames[..stop]), frames[stop].offset,
                  frames[stop].data, disk(stop));
                 w.error == last && after == w.after
    ensures Sound(sha, after) && after.session.size == rcv.session.size && (Unspoiled(after.session) ==>
              Unspoiled(rcv.session))
  {
    hide Sound, WriteFrame, Unspoiled;
    T.SoundFits(sha, rcv);
    after := rcv;
    stop := 0;
    var i := 0;
    while i < |frames|
      invariant 0 <= i == stop <= |frames| && FramesFit(frames[..i], rcv.session.size)
      invariant after == SendAll(sha, rcv, start, frames[..i])
      invariant Sound(sha, after) && after.session.size == rcv.session.size
      invariant Unspoiled(after.session) ==> Unspoiled(rcv.session)
      invariant forall j :: 0 <= j < i ==>
                  FramesFit(frames[..j], rcv.session.size) && Passes(sha, rcv, start, frames, j)
    {
      if frames[i].offset >= start {
        var w := WriteFrame(sha, after, frames[i].offset, frames[i].data, disk(i));
        WriteKeepsSound(sha, after, frames[i].offset, frames[i].data, disk(i));
        after := w.after;
        OnlyTheDiskFails(sha, SendAll(sha, rcv, start, frames[..i]), frames[i].offset, frames[i].data, disk(i));
        if !w.error.Accepted? {
          return w.error, after, stop;
        }
        AcceptedIsStored(sha, SendAll(sha, rcv, start, frames[..i]), frames[i].offset, frames[i].data, disk(i));
      }
      assert frames[..i + 1][..i] == frames[..i];
      i, stop := i + 1, stop + 1;
    }
    assert frames[..i] == frames;
    last := Accepted;
  }

  // Frame i is skipped or accepted.
  predicate Passes(sha: Sha, rcv: Receiver, start: nat, frames: seq<Frame>, i: nat)
    requires rcv.Fits() && i < |frames| && FramesFit(frames[..i], rcv.session.size) && frames[i].offset < TWO_64
  {
    frames[i].offset >= start ==>
      WriteFrame(sha, SendAll(sha, rcv, start, frames[..i]), frames[i].offset, frames[i].data, Stored).error.Accepted?
  }

  lemma AcceptedIsStored(sha: Sha, rcv: Receiver, offset: uint64, data: Bytes, disk: Disk)
    requires rcv.Fits() && WriteFrame(sha, rcv, offset, data, disk).error.Accepted?
    ensures WriteFrame(sha, rcv, offset, data, disk) == WriteFrame(sha, rcv, offset, data, Stored)
  {
  }

  // A stream that stops at a frame leaves a receiver that still tracks the source, and with a
  // working disk on a session without failed writes it does not stop.
  lemma StoppedAt(sha: Sha, source: Bytes, rcv: Receiver, chunks: nat, stop: nat, disk: Disk)
    requires |source| < TWO_63 && Synced(sha, source, rcv) && chunks <= NumChunks(|source|)
    requires stop < |Frames(source, chunks)| && FramesFit(Frames(source, chunks)[..stop], |source|)
    requires Frames(source, chunks)[stop].offset >= rcv.session.next
    ensures var mid, frame := SendAll(sha, rcv, rcv.session.next, Frames(source, chunks)[..stop]), Frames(source,
              chunks)[stop];
            && frame.offset < TWO_64
            && var w := WriteFrame(sha, mid, frame.offset, frame.data, disk);
               && (disk.Stored? ==> w.error.Accepted?) && !w.error.BadFrame?
               && (!w.error.Accepted? ==> Tracks(sha, source, w.after))
  {
    hide Sound, WriteFrame, Unspoiled, Between, StreamTo, SendAll, Frames;
    var j := FramesPrefix(source, chunks, stop);
    SendingFrames(sha, source, rcv, rcv.session.next, j);
    StreamKeepsSynced(sha, source, rcv, j);
    var mid := StreamTo(sha, source, rcv, rcv.session.next, j);
    SendChunk(sha, source, mid, rcv.session.next, j);
    OnlyTheDiskFails(sha, mid, j * CHUNK, Chunk(source, j), disk);
    if !WriteFrame(sha, mid, j * CHUNK, Chunk(source, j), disk).error.Accepted? {
      FailedKeepsTracks(sha, source, mid, j * CHUNK, Chunk(source, j), disk);
    }
  }

  // Whether a frame is refused does not depend on the disk, and a working disk fails none.
  lemma OnlyTheDiskFails(sha: Sha, rcv: Receiver, offset: uint64, data: Bytes, disk: Disk)
    requires rcv.Fits()
    ensures WriteFrame(sha, rcv, offset, data, disk).error.BadFrame?
            <==> WriteFrame(sha, rcv, offset, data, Stored).error.BadFrame?
    ensures offset < TWO_63 && disk.Stored? ==> !WriteFrame(sha, rcv, offset, data, disk).error.DiskError?
  {
  }

  lemma FailedKeepsTracks(sha: Sha, source: Bytes, rcv: Receiver, offset: uint64, data: Bytes, disk: Disk)
    requires Synced(sha, source, rcv) && !WriteFrame(sha, rcv, offset, data, disk).error.Accepted?
    ensures Tracks(sha, source, WriteFrame(sha, rcv, offset, data, disk).after)
  {
    hide Sound;
    WriteKeepsSound(sha, rcv, offset, data, disk);
  }

  // What an earlier stream still delivers after the query keeps the receiver sound.
  lemma {:induction false} LateKeepsSound(sha: Sha, source: Bytes, rcv: Receiver, start: nat, k: nat)
    requires Sound(sha, rcv) && rcv.Fits() && k <= NumChunks(|source|) && |source| < TWO_63
    ensures var r := StreamTo(sha, source, rcv, start, k);
            Sound(sha, r) && (Unspoiled(r.session) ==> Unspoiled(rcv.session))
  {
    hide Sound, Unspoiled, WriteFrame, AllZero, Chunk;
    if k > 0 {
      LateKeepsSound(sha, source, rcv, start, k - 1);
      var before := StreamTo(sha, source, rcv, start, k - 1);
      ChunkKeepsSound(sha, source, before, start, k - 1);
    }
  }

  lemma ChunkKeepsSound(sha: Sha, source: Bytes, rcv: Receiver, start: nat, k: nat)
    requires Sound(sha, rcv) && rcv.Fits() && k < NumChunks(|source|) && |source| < TWO_63
    ensures var r := StreamChunk(sha, source, rcv, start, k);
            Sound(sha, r) && (Unspoiled(r.session) ==> Unspoiled(rcv.session))
  {
    hide Sound, Unspoiled, WriteFrame, AllZero;
    WriteKeepsSound(sha, rcv, k * CHUNK, Chunk(source, k), Stored);
  }

  // If the offset moved, the earlier stream delivered some non-zero chunk from the queried one on.
  lemma {:induction false} LateMoves(sha: Sha, source: Bytes, rcv: Receiver, k: nat) returns (j: nat)
    requires Synced(sha, source, rcv) && rcv.Fits() && k <= NumChunks(|source|) && |source| < TWO_63
    ensures var r, start := StreamTo(sha, source, rcv, rcv.session.next, k), rcv.session.next;
            || r == rcv
            || (j < k && !AllZero(Chunk(source, j)) && start <= j * CHUNK < r.session.next)
  {
    hide Synced, Between, StreamChunk, AllZero, Chunk, NumChunks;
    j := 0;
    if k > 0 {
      j := LateMoves(sha, source, rcv, k - 1);
      StreamKeepsSynced(sha, source, rcv, k - 1);
      var before := StreamTo(sha, source, rcv, rcv.session.next, k - 1);
      LateChunk(sha, source, before, rcv.session.next, k - 1);
      if !AllZero(Chunk(source, k - 1)) && (k - 1) * CHUNK >= rcv.session.next {
        j := k - 1;
      }
    }
  }

  lemma LateChunk(sha: Sha, source: Bytes, rcv: Receiver, start: nat, k: nat)
    requires k < NumChunks(|source|) && |source| < TWO_63 && rcv.Fits()
    requires Synced(sha, source, rcv) && Between(source, rcv.session, start, k)
    ensures var r := StreamChunk(sha, source, rcv, start, k);
            if AllZero(Chunk(source, k)) || k * CHUNK < start then r == rcv else r.session.next > k * CHUNK
  {
    hide Synced, Between, WriteFrame, AllZero, Chunk;
    if !AllZero(Chunk(source, k)) && k * CHUNK >= start {
      SendChunk(sha, source, rcv, start, k);
      ChunkStarts(source, k);
    }
  }

  lemma ChunkStarts(content: Bytes, k: nat)
    requires k < NumChunks(|content|)
    ensures k * CHUNK < Min((k + 1) * CHUNK, |content|)
  {
  }

  // A non-zero chunk is among the frames of every longer prefix.
  lemma {:induction false} ChunkIsFrame(content: Bytes, j: nat, k: nat) returns (i: nat)
    requires j < k <= NumChunks(|content|) && !AllZero(Chunk(content, j))
    ensures i < |Frames(content, k)| && Frames(content, k)[i] == Frame(j * CHUNK, Chunk(content, j))
  {
    hide AllZero, Chunk;
    if j == k - 1 {
      i := |Frames(content, k)| - 1;
    } else {
      i := ChunkIsFrame(content, j, k - 1);
    }
  }

  // Frames before the start leave the receiver alone.
  lemma {:induction false} NothingToSend(sha: Sha, rcv: Receiver, start: nat, frames: seq<Frame>)
    requires rcv.Fits() && FramesFit(frames, rcv.session.size)
    requires forall i :: 0 <= i < |frames| ==> frames[i].offset < start
    ensures SendAll(sha, rcv, start, frames) == rcv
  {
    if frames != [] {
      NothingToSend(sha, rcv, start, frames[..|frames| - 1]);
    }
  }

  // A frame behind the receiver's offset changes nothing.
  lemma BehindIsRefused(sha: Sha, rcv: Receiver, offset: uint64, data: Bytes, disk: Disk)
    requires rcv.Fits() && offset < rcv.session.next
    ensures var w := WriteFrame(sha, rcv, offset, data, disk);
            !w.error.Accepted? && w.after == rcv
  {
  }

  // A stream that starts behind the receiver's offset is refused at its first frame and changes
  // nothing, and it does not get through a source that has such a frame.
  lemma StaleStops(sha: Sha, source: Bytes, rcv: Receiver, j: nat, start: nat, chunks: nat, stop: nat)
    requires rcv.Fits() && |source| == rcv.session.size && |source| < TWO_63 && chunks <= NumChunks(|source|)
    requires j < NumChunks(|source|) && !AllZero(Chunk(source, j)) && start <= j * CHUNK < rcv.session.next
    requires FramesFit(Frames(source, chunks), |source|) && stop <= |Frames(source, chunks)|
    requires forall i :: 0 <= i < stop ==>
               FramesFit(Frames(source, chunks)[..i], |source|) && Passes(sha, rcv, start, Frames(source, chunks), i)
    ensures forall i :: 0 <= i < stop ==> Frames(source, chunks)[i].offset < start
    ensures stop < |Frames(source, chunks)| && Frames(source, chunks)[stop].offset >= start ==>
              Frames(source, chunks)[stop].offset < rcv.session.next
    ensures chunks == NumChunks(|source|) ==> stop < |Frames(source, chunks)|
  {
    hide AllZero, Chunk, WriteFrame, NumChunks;
    var frames := Frames(source, chunks);
    forall i | 0 <= i < |frames| && i <= stop && (forall l :: 0 <= l < i ==> frames[l].offset < start)
      ensures frames[i].offset >= start ==> frames[i].offset < rcv.session.next
    {
      FirstIsBehind(source, chunks, i, j, start);
    }
    NoneAccepted(sha, rcv, start, frames, stop);
    if chunks == NumChunks(|source|) {
      var at := ChunkIsFrame(source, j, chunks);
    }
  }

  // The first frame from the start on is not behind chunk j.
  lemma FirstIsBehind(source: Bytes, chunks: nat, i: nat, j: nat, start: nat)
    requires chunks <= NumChunks(|source|) && i < |Frames(source, chunks)|
    requires j < NumChunks(|source|) && !AllZero(Chunk(source, j)) && start <= j * CHUNK
    requires forall l :: 0 <= l < i ==> Frames(source, chunks)[l].offset < start
    ensures Frames(source, chunks)[i].offset <= j * CHUNK
  {
    hide AllZero, Chunk;
    var m := FramesPrefix(source, chunks, i);
    if j < m {
      var at := FrameBefore(source, chunks, i, j, m);
      assert false;
    }
  }

  lemma FrameBefore(source: Bytes, chunks: nat, i: nat, j: nat, m: nat) returns (at: nat)
    requires j < m <= chunks <= NumChunks(|source|) && i < |Frames(source, chunks)| && !AllZero(Chunk(source, j))
    requires Frames(source, chunks)[..i] == Frames(source, m)
    ensures at < i && Frames(source, chunks)[at].offset == j * CHUNK
  {
    hide AllZero, Chunk;
    at := ChunkIsFrame(source, j, m);
    assert Frames(source, chunks)[at] == Frames(source, chunks)[..i][at];
  }

  // Where each first frame from the start on is behind, none passes.
  lemma {:induction false} NoneAccepted(sha: Sha, rcv: Receiver, start: nat, frames: seq<Frame>, stop: nat)
    requires rcv.Fits() && FramesFit(frames, rcv.session.size) && rcv.session.size < TWO_63 && stop <= |frames|
    requires forall i :: 0 <= i < stop ==>
              FramesFit(frames[..i], rcv.session.size) && Passes(sha, rcv, start, frames, i)
    requires forall i :: 0 <= i < |frames| && i <= stop && (forall l :: 0 <= l < i ==> frames[l].offset < start) ==>
               (frames[i].offset >= start ==> frames[i].offset < rcv.session.next)
    ensures forall i :: 0 <= i < stop ==> frames[i].offset < start
  {
    hide WriteFrame;
    if stop > 0 {
      NoneAccepted(sha, rcv, start, frames, stop - 1);
      var i := stop - 1;
      assert Passes(sha, rcv, start, frames, i);
      NothingToSend(sha, rcv, start, frames[..i]);
      if frames[i].offset >= start {
        BehindIsRefused(sha, rcv, frames[i].offset, frames[i].data, Stored);
        assert false;
      }
    }
  }

  // streamOnce: queries the offset, reads the device and sends. The query, the opening, any frame
  // and the closing may fail, and an earlier stream may still deliver after the query. The receiver
  // keeps what it got.
  method StreamOnce(sha: Sha, device: array<byte>, rcv: Receiver, attempt: Attempt)
      returns (ok: bool, digest: Hash, after: Receiver, code: Code, ghost last: WriteError)
    requires device.Length < TWO_63 && Tracks(sha, device[..], rcv)
    ensures Tracks(sha, device[..], after) && (Unspoiled(after.session) ==> Unspoiled(rcv.session))
    ensures ok ==> Through(attempt, device[..]) && digest == ContentDigest(sha, device[..])
    ensures ok && Unspoiled(after.session) ==> after.device == device[..]
    ensures Explains(attempt, device[..], last, ok, code)
    ensures last.DiskError? ==> exists i :: !attempt.disk(i).Stored?
    ensures last.BadFrame? && Unspoiled(rcv.session) ==> attempt.late > 0
    ensures Unspoiled(rcv.session) && Calm(attempt) ==>
              Unspoiled(after.session) && (ok <==> Through(attempt, device[..])) && last.Accepted?
  {
    hide Sound, Unspoiled, Synced, Tracks, Calm, StreamTo, WriteFrame, SendAll, Passes, Frames;
    var source := device[..];
    ok, digest, after, code, last := false, Zeros(HASH_BYTES), rcv, attempt.code, Accepted;
    if !attempt.starts {
      return;
    }
    TracksFits(sha, source, rcv);
    var start := rcv.session.next;
    var current := StreamTo(sha, source, rcv, start, Min(attempt.late, NumChunks(|source|)));
    LateTracks(sha, source, rcv, Min(attempt.late, NumChunks(|source|)));
    TracksFits(sha, source, current);
    CalmIsCurrent(sha, source, rcv, attempt);
    var read, frames, sum, chunks := ReadDevice(sha, device, attempt.opens, attempt.readable, attempt.sends);
    SendingFrames(sha, source, current, start, chunks);
    ghost var stop;
    var taken;
    taken, after, stop := Deliver(sha, current, start, frames, attempt.disk);
    last := taken;
    if current == rcv {
      StreamLeaves(sha, source, current, after, chunks, last, stop, attempt);
    } else {
      StaleLeaves(sha, source, rcv, current, after, chunks, last, stop, attempt);
    }
    if !taken.Accepted? {
      // the close surfaces the answer behind a failed send
      code := if attempt.closes then CodeOf(T.Framed(taken)) else attempt.code;
      return;
    }
    if !read {
      code := if attempt.opens && chunks < attempt.readable then attempt.code else Unknown;
      return;
    }
    digest := sum;
    ok := attempt.closes;
    code := if ok then OK else attempt.code;
  }

  lemma TracksFits(sha: Sha, source: Bytes, rcv: Receiver)
    requires Tracks(sha, source, rcv)
    ensures Sound(sha, rcv) && rcv.Fits() && |source| == rcv.session.size
  {
  }

  lemma CalmIsCurrent(sha: Sha, source: Bytes, rcv: Receiver, attempt: Attempt)
    requires rcv.Fits() && |source| < TWO_63
    ensures Calm(attempt) ==> attempt.late == 0
    ensures StreamTo(sha, source, rcv, rcv.session.next, 0) == rcv
  {
  }

  lemma LateTracks(sha: Sha, source: Bytes, rcv: Receiver, k: nat)
    requires Tracks(sha, source, rcv) && k <= NumChunks(|source|) && |source| < TWO_63 && rcv.Fits()
    ensures var r := StreamTo(sha, source, rcv, rcv.session.next, k);
            Tracks(sha, source, r) && (Unspoiled(r.session) ==> Unspoiled(rcv.session))
  {
    hide Sound, Unspoiled, StreamTo, Between;
    LateKeepsSound(sha, source, rcv, rcv.session.next, k);
    if Unspoiled(rcv.session) {
      StreamKeepsSynced(sha, source, rcv, k);
    }
  }

  // What a stream leaves that an earlier one overtook.
  lemma StaleLeaves(sha: Sha, source: Bytes, rcv: Receiver, current: Receiver, after: Receiver, chunks: nat,
                    last: WriteError, stop: nat, attempt: Attempt)
    requires |source| < TWO_63 && Tracks(sha, source, rcv) && rcv.Fits() && chunks <= NumChunks(|source|)
    requires current == StreamTo(sha, source, rcv, rcv.session.next, Min(attempt.late, NumChunks(|source|)))
    requires current != rcv
    requires Tracks(sha, source, current) && FramesFit(Frames(source, chunks), |source|)
    requires stop <= |Frames(source, chunks)| && (last.Accepted? <==> stop == |Frames(source, chunks)|)
    requires FramesFit(Frames(source, chunks)[..stop], |source|)
    requires forall i :: 0 <= i < stop ==>
               && FramesFit(Frames(source, chunks)[..i], |source|) && current.session.size == |source| && current.Fits()
               && Passes(sha, current, rcv.session.next, Frames(source, chunks), i)
    requires current.Fits() && current.session.size == |source|
    requires last.Accepted? ==> after == SendAll(sha, current, rcv.session.next, Frames(source, chunks))
    requires !last.Accepted? ==>
               && Frames(source, chunks)[stop].offset >= rcv.session.next
               && Frames(source, chunks)[stop].offset < TWO_64
               && var w := WriteFrame(sha, SendAll(sha, current, rcv.session.next, Frames(source, chunks)[..stop]),
                                      Frames(source, chunks)[stop].offset, Frames(source, chunks)[stop].data,
                                          attempt.disk(stop));
                  w.error == last && after == w.after
    requires Sound(sha, after) && after.session.size == |source| && (Unspoiled(after.session) ==>
              Unspoiled(current.session))
    requires Unspoiled(current.session) ==> Unspoiled(rcv.session)
    ensures Tracks(sha, source, after)
    ensures Unspoiled(after.session) && chunks == NumChunks(|source|) ==> !last.Accepted?
  {
    hide Sound, Unspoiled, WriteFrame, Frames, StreamTo, Synced;
    if Unspoiled(after.session) {
      var start := rcv.session.next;
      var j := LateMoves(sha, source, rcv, Min(attempt.late, NumChunks(|source|)));
      StaleStops(sha, source, current, j, start, chunks, stop);
      NothingToSend(sha, current, start, Frames(source, chunks)[..stop]);
      if last.Accepted? {
        assert Frames(source, chunks)[..stop] == Frames(source, chunks);
      } else {
        BehindIsRefused(sha, current, Frames(source, chunks)[stop].offset, Frames(source, chunks)[stop].data,
            attempt.disk(stop));
      }
    }
  }

  // What a stream leaves, sent to the end or stopped at a frame.
  lemma StreamLeaves(sha: Sha, source: Bytes, rcv: Receiver, after: Receiver, chunks: nat, last: WriteError, stop: nat,
                     attempt: Attempt)
    requires |source| < TWO_63 && Tracks(sha, source, rcv) && chunks <= NumChunks(|source|)
    requires stop <= |Frames(source, chunks)| && FramesFit(Frames(source, chunks)[..stop], |source|)
    requires FramesFit(Frames(source, chunks), |source|)
    requires last.Accepted? ==> after == SendAll(sha, rcv, rcv.session.next, Frames(source, chunks))
    requires !last.Accepted? ==>
               && stop < |Frames(source, chunks)| && Frames(source, chunks)[stop].offset >= rcv.session.next
               && Frames(source, chunks)[stop].offset < TWO_64
               && var w := WriteFrame(sha, SendAll(sha, rcv, rcv.session.next, Frames(source, chunks)[..stop]),
                                      Frames(source, chunks)[stop].offset, Frames(source, chunks)[stop].data,
                                          attempt.disk(stop));
                  w.error == last && after == w.after
    requires Sound(sha, after) && after.session.size == |source| && (Unspoiled(after.session) ==>
              Unspoiled(rcv.session))
    ensures Tracks(sha, source, after)
    ensures Unspoiled(rcv.session) ==> !last.BadFrame?
    ensures Unspoiled(rcv.session) && Calm(attempt) ==> last.Accepted? && Unspoiled(after.session)
    ensures last.Accepted? && chunks == NumChunks(|source|) && Unspoiled(after.session) ==> after.device == source
  {
    hide Sound, Unspoiled, WriteFrame, SendAll, Frames, StreamTo;
    if Unspoiled(rcv.session) {
      T.SoundFits(sha, rcv);
      if last.Accepted? {
        SendingFrames(sha, source, rcv, rcv.session.next, chunks);
        StreamKeepsSynced(sha, source, rcv, chunks);
        FullStream(sha, source, rcv);
      } else {
        StoppedAt(sha, source, rcv, chunks, stop, attempt.disk(stop));
      }
    }
  }

  // The first attempt that gets through, none before it having failed for good.
  predicate FirstThrough(attempts: seq<Attempt>, source: Bytes, k: nat) {
    k < |attempts| && Through(attempts[k], source)
    && forall i :: 0 <= i < k ==>
         && !Through(attempts[i], source)
         && FailureOf(attempts[i], source) !in {NotFound, InvalidArgument, AlreadyExists, FailedPrecondition, DataLoss}
  }

  // The driver of the move protocol after some attempts failed.
  function Reopened(codes: seq<Code>): C.Driver {
    if codes == [] then C.Streaming(0, false)
    else
      var before := Reopened(codes[..|codes| - 1]);
      if before.Streaming? then C.Reopen(Definitive(codes[|codes| - 1]), before.attempt) else before
  }

  lemma ReopenedNext(codes: seq<Code>, code: Code)
    ensures Reopened([]) == C.Streaming(0, false)
    ensures Reopened(codes + [code])
            == if Reopened(codes).Streaming? then C.Reopen(Definitive(code), Reopened(codes).attempt)
               else Reopened(codes)
  {
    assert (codes + [code])[..|codes|] == codes;
  }

  ghost predicate AllCalm(attempts: seq<Attempt>) {
    forall i :: 0 <= i < |attempts| ==> Calm(attempts[i])
  }

  // streamVolume: bounded retries, each resuming at the queried offset. Whatever the target's disk
  // does, a delivered stream without failed writes leaves the source there. With a working disk it
  // delivers exactly when some attempt gets through before a definitive refusal.
  method StreamVolume(sha: Sha, device: array<byte>, rcv: Receiver, attempts: seq<Attempt>)
      returns (ok: bool, digest: Hash, after: Receiver, ghost codes: seq<Code>, ghost lasts: seq<WriteError>)
    requires device.Length < TWO_63 && Tracks(sha, device[..], rcv) && |attempts| == C.PUSH_ATTEMPTS
    ensures Tracks(sha, device[..], after) && (Unspoiled(after.session) ==> Unspoiled(rcv.session))
    ensures ok ==> digest == ContentDigest(sha, device[..])
    ensures 0 < |codes| == |lasts| <= 5 && |codes| <= |attempts|
    ensures forall i :: 0 <= i < |codes| ==>
              Explains(attempts[i], device[..], lasts[i], ok && i == |codes| - 1, codes[i])
    ensures forall i :: 0 <= i < |codes| - 1 ==>
              codes[i] !in {NotFound, InvalidArgument, AlreadyExists, FailedPrecondition, DataLoss}
    ensures ok || |codes| == 5
            || codes[|codes| - 1] in {NotFound, InvalidArgument, AlreadyExists, FailedPrecondition, DataLoss}
    ensures if ok then Reopened(codes[..|codes| - 1]) == C.Streaming(|codes| - 1, false)
            else Reopened(codes) == C.GivingUp
    ensures ok && Unspoiled(after.session) ==> after.device == device[..] && Accepts(sha, after.session, digest)
    ensures Unspoiled(rcv.session) && AllCalm(attempts) ==>
              Unspoiled(after.session) && (ok <==> exists k :: FirstThrough(attempts, device[..], k))
  {
    hide Sound, Unspoiled, Synced, Calm, Accepts, FailureOf, NumChunks, Frames, Reopened, Tracks;
    ReopenedNext([], OK);
    after, ok, digest, codes, lasts := rcv, false, Zeros(HASH_BYTES), [], [];
    var attempt := 0;
    while attempt < C.PUSH_ATTEMPTS
      invariant 0 <= attempt == |codes| == |lasts| <= C.PUSH_ATTEMPTS && Tracks(sha, device[..], after) && !ok
      invariant Unspoiled(after.session) ==> Unspoiled(rcv.session)
      invariant Reopened(codes) == if attempt < C.PUSH_ATTEMPTS then C.Streaming(attempt, false) else C.GivingUp
      invariant forall i :: 0 <= i < attempt ==>
                  !Definitive(codes[i]) && Explains(attempts[i], device[..], lasts[i], false, codes[i])
      invariant Unspoiled(rcv.session) && AllCalm(attempts) ==>
                  Unspoiled(after.session) && forall i :: 0 <= i < attempt ==> lasts[i].Accepted?
    {
      var code;
      ghost var last;
      ok, digest, after, code, last := StreamOnce(sha, device, after, attempts[attempt]);
      ReopenedNext(codes, code);
      ghost var before := codes;
      codes, lasts := codes + [code], lasts + [last];
      assert codes[..attempt] == before;
      assert AllCalm(attempts) ==> Calm(attempts[attempt]);
      if ok {
        assert Unspoiled(rcv.session) && AllCalm(attempts) ==> FirstThrough(attempts, device[..], attempt);
        if Unspoiled(after.session) {
          WholeIsAccepted(sha, device[..], after);
        }
        return;
      }
      if Definitive(code) {
        return;
      }
      attempt := attempt + 1;
    }
  }

  lemma WholeIsAccepted(sha: Sha, source: Bytes, rcv: Receiver)
    requires Tracks(sha, source, rcv) && Unspoiled(rcv.session) && rcv.device == source && |source| < TWO_63
    ensures Accepts(sha, rcv.session, ContentDigest(sha, source))
  {
    SealIsContentLog(sha, rcv);
  }

  // ------------------------------------------------------------------------------- the commit

  datatype CommitOutcome = CommitLanded | CommitRefused | CommitUnknown

  predicate Inconclusive(reply: C.Option<C.Reply>) {
    reply in {C.None, C.Some(C.Busy), C.Some(C.Internal)}
  }

  lemma OtherReplies(reply: C.Option<C.Reply>)
    ensures Inconclusive(reply) || reply in {C.Some(C.Ok), C.Some(C.DataLoss), C.Some(C.NotFound)}
  {
    if reply.Some? {
      assert reply == C.Some(reply.value);
      match reply.value
      case Ok =>
      case DataLoss =>
      case NotFound =>
      case Busy =>
      case Internal =>
    }
  }

  // The driver of the move protocol after some answers.
  function Driven(d: C.Driver, replies: seq<C.Option<C.Reply>>): C.Driver {
    if replies == [] then d
    else
      var before := Driven(d, replies[..|replies| - 1]);
      if before.CommitSent? then C.React(replies[|replies| - 1], before.attempt) else before
  }

  // What befalls the target before a call gets there: the end of its session, a restart with
  // recovery, or use of the volume once it is there.
  datatype Upset = Nothing | SessionEnds(removed: bool) | Restarts(recovers: bool)
    | Used(attached: bool, content: Bytes)

  function Upsetting(n: C.Node, upset: Upset): C.Node {
    match upset
    case Nothing => n
    case SessionEnds(removed) => if n.inbound.Live? then C.Destroyed(n, removed) else n
    case Restarts(recovers) =>
      var removed := recovers && n.copy.Copy? && n.copy.state == L.Incoming;
      C.Node(if removed then C.Absent else n.copy, C.NoSession, {}, {}, C.Idle)
    case Used(attached, content) =>
      var state := if attached then L.Attached else L.Ready;
      if C.Answers(n) && |content| < TWO_63 then n.(copy := C.NewCopy(state, content)) else n
  }

  // The end of a session is the protocol's, and so is a restart: it forgets the session and every id,
  // and recovery removes what is half received.
  lemma SessionEndIsStep(sha: Sha, s: C.Nodes, n: string, removed: bool)
    requires C.Enabled(s, C.EndSession(n, removed))
    ensures C.Next(sha, s, C.EndSession(n, removed))[n] == Upsetting(s[n], SessionEnds(removed))
  {
    assert C.EndSession(n, removed).n == n;
  }

  lemma RestartIsTwoSteps(sha: Sha, s: C.Nodes, down: C.Nodes, n: string, recovers: bool)
    requires n in s && (s[n].copy.Copy? ==> s[n].copy.state in {L.Incoming, L.Ready, L.Attached, L.Retired})
    requires C.Enabled(s, C.Crash(n)) && down == C.Next(sha, s, C.Crash(n))
    ensures C.Enabled(down, C.Restart(n, recovers))
    ensures C.Next(sha, down, C.Restart(n, recovers))[n] == Upsetting(s[n], Restarts(recovers))
  {
    assert down[n] == C.Node(s[n].copy, C.NoSession, {}, {}, C.Idle);
  }

  // One CommitTransfer: it may not arrive, and its answer may be lost.
  datatype Rpc = Rpc(upset: Upset, arrives: bool, answered: bool, report: C.Report, removed: bool)

  // The target after a call, what the source hears, and the content the call handed over, if it did.
  datatype Called = Called(node: C.Node, reply: C.Option<C.Reply>, handed: C.Option<Bytes>)

  function CallCommit(sha: Sha, n: C.Node, transfer: string, digest: Bytes, rpc: Rpc): Called {
    var m := Upsetting(n, rpc.upset);
    if !rpc.arrives then Called(m, C.None, C.None)
    else
      var c := C.CommitOn(sha, m, transfer, digest, rpc.report, rpc.removed);
      Called(c.node, if rpc.answered then C.Some(c.reply) else C.None, HandedBy(m, c.node))
  }

  function HandedBy(before: C.Node, after: C.Node): C.Option<Bytes> {
    if !C.Answers(before) && C.Answers(after) then C.Some(after.copy.content) else C.None
  }

  function Handed(before: C.Option<Bytes>, now: C.Option<Bytes>): C.Option<Bytes> {
    if now.Some? then now else before
  }

  // The target of a push before its commit landed.
  predicate Open(sha: Sha, n: C.Node, transfer: string) {
    C.NodeOk(sha, n) && !C.Answers(n) && transfer !in n.committed
  }

  predicate Mine(n: C.Node, transfer: string) {
    n.inbound.Live? && n.inbound.transfer == transfer
  }

  // Nothing landed and nothing can: a commit that still arrives is told there is no such transfer.
  predicate Closed(n: C.Node, transfer: string) {
    !C.Answers(n) && !Mine(n, transfer) && transfer !in n.committed
  }

  lemma ClosedStaysClosed(sha: Sha, n: C.Node, transfer: string, digest: Bytes, rpc: Rpc)
    requires Closed(n, transfer)
    ensures var c := CallCommit(sha, n, transfer, digest, rpc);
            Closed(c.node, transfer) && (c.reply.Some? ==> c.reply == C.Some(C.NotFound))
  {
  }

  // The one comparison a commit makes is not fooled by a collision.
  predicate Clear(sha: Sha, n: C.Node, transfer: string, content: Bytes)
    requires |content| < TWO_64
  {
    Mine(n, transfer) && n.copy.Copy? && |n.copy.content| < TWO_64 ==>
      Distinguishes(sha, Seal(sha, n.inbound.session), n.copy.content, content)
  }

  // Open, or the volume is there since a commit handed it over, without a collision with the content
  // that was pushed.
  ghost predicate OpenOrLanded(sha: Sha, n: C.Node, transfer: string, content: Bytes, clear: bool,
                               handed: C.Option<Bytes>)
    requires |content| < TWO_64
  {
    || (Open(sha, n, transfer) && handed.None? && (clear ==> Clear(sha, n, transfer, content)))
    || HasIt(sha, n, content, clear, handed)
  }

  // The target has the volume, and was handed the pushed content unless two hashes collided.
  ghost predicate HasIt(sha: Sha, n: C.Node, content: Bytes, clear: bool, handed: C.Option<Bytes>) {
    && C.NodeOk(sha, n) && C.Answers(n) && n.inbound.NoSession? && n.driver.Idle?
    && handed.Some? && (clear ==> handed == C.Some(content))
  }

  lemma UpsetKeeps(sha: Sha, n: C.Node, transfer: string, content: Bytes, clear: bool, handed: C.Option<Bytes>,
                   upset: Upset)
    requires |content| < TWO_64 && OpenOrLanded(sha, n, transfer, content, clear, handed)
    ensures OpenOrLanded(sha, Upsetting(n, upset), transfer, content, clear, handed)
    ensures C.Answers(Upsetting(n, upset)) <==> C.Answers(n)
  {
    hide Sound, Distinguishes;
  }

  // A commit lands only with the content in place, its OK means it landed and its DataLoss that it
  // did not.
  lemma CommitKeeps(sha: Sha, n: C.Node, transfer: string, content: Bytes, clear: bool, handed: C.Option<Bytes>,
                    report: C.Report, removed: bool)
    requires |content| < TWO_64 && OpenOrLanded(sha, n, transfer, content, clear, handed)
    ensures var c := C.CommitOn(sha, n, transfer, ContentDigest(sha, content), report, removed);
            && OpenOrLanded(sha, c.node, transfer, content, clear, Handed(handed, HandedBy(n, c.node)))
            && (c.reply.Ok? ==> C.Answers(c.node))
            && (c.reply.DataLoss? ==> Closed(c.node, transfer))
  {
    hide Sound, Distinguishes, Accepts;
    if clear && Mine(n, transfer) && Accepts(sha, n.inbound.session, ContentDigest(sha, content)) {
      CommitAcceptsIff(sha, Receiver(n.inbound.session, n.copy.content), content);
    }
  }

  lemma CallKeeps(sha: Sha, n: C.Node, transfer: string, content: Bytes, clear: bool, handed: C.Option<Bytes>, rpc: Rpc)
    requires |content| < TWO_64 && OpenOrLanded(sha, n, transfer, content, clear, handed)
    ensures var c := CallCommit(sha, n, transfer, ContentDigest(sha, content), rpc);
            && OpenOrLanded(sha, c.node, transfer, content, clear, Handed(handed, c.handed))
            && (c.reply == C.Some(C.Ok) ==> C.Answers(c.node))
            && (c.reply == C.Some(C.DataLoss) ==> Closed(c.node, transfer))
  {
    hide OpenOrLanded, C.Answers;
    UpsetKeeps(sha, n, transfer, content, clear, handed, rpc.upset);
    CommitKeeps(sha, Upsetting(n, rpc.upset), transfer, content, clear, handed, rpc.report, rpc.removed);
  }

  // The target after some calls.
  function NodeAfter(sha: Sha, n: C.Node, transfer: string, digest: Bytes, rpcs: seq<Rpc>): C.Node {
    if rpcs == [] then n
    else
      var last := |rpcs| - 1;
      CallCommit(sha, NodeAfter(sha, n, transfer, digest, rpcs[..last]), transfer, digest, rpcs[last]).node
  }

  // What the source hears of the next call.
  function ReplyAfter(sha: Sha, n: C.Node, transfer: string, digest: Bytes, rpcs: seq<Rpc>, k: nat): C.Option<C.Reply>
    requires k < |rpcs|
  {
    CallCommit(sha, NodeAfter(sha, n, transfer, digest, rpcs[..k]), transfer, digest, rpcs[k]).reply
  }

  // The calls so far, what the source heard and where the target stands.
  ghost predicate Talking(sha: Sha, target: C.Node, transfer: string, digest: Bytes, rpcs: seq<Rpc>,
                          replies: seq<C.Option<C.Reply>>, after: C.Node)
  {
    && |replies| <= |rpcs| && after == NodeAfter(sha, target, transfer, digest, rpcs[..|replies|])
    && forall i :: 0 <= i < |replies| ==> replies[i] == ReplyAfter(sha, target, transfer, digest, rpcs, i)
  }

  lemma TalkGoesOn(sha: Sha, target: C.Node, transfer: string, digest: Bytes, rpcs: seq<Rpc>,
                   replies: seq<C.Option<C.Reply>>, after: C.Node)
    requires Talking(sha, target, transfer, digest, rpcs, replies, after) && |replies| < |rpcs|
    ensures var call := CallCommit(sha, after, transfer, digest, rpcs[|replies|]);
            Talking(sha, target, transfer, digest, rpcs, replies + [call.reply], call.node)
  {
    hide CallCommit;
    assert rpcs[..|replies| + 1][..|replies|] == rpcs[..|replies|];
  }

  lemma TalkStarts(sha: Sha, target: C.Node, transfer: string, digest: Bytes, rpcs: seq<Rpc>)
    ensures Talking(sha, target, transfer, digest, rpcs, [], target)
  {
  }

  // The calls of a push from the first to the one that decides: an answer that counts, or the fifth.
  // In between the answers are lost, or say that the target is busy or in trouble.
  ghost predicate Talk(sha: Sha, target: C.Node, transfer: string, digest: Bytes, rpcs: seq<Rpc>,
                       replies: seq<C.Option<C.Reply>>, outcome: CommitOutcome, after: C.Node)
  {
    && Talking(sha, target, transfer, digest, rpcs, replies, after) && 0 < |replies| <= 5
    && (forall i :: 0 <= i < |replies| - 1 ==> replies[i] in {C.None, C.Some(C.Busy), C.Some(C.Internal)})
    && var last := replies[|replies| - 1];
       match outcome
       case CommitLanded => last == C.Some(C.Ok)
       case CommitRefused => last == C.Some(C.DataLoss)
       case CommitUnknown =>
         last == C.Some(C.NotFound) || (|replies| == 5 && last in {C.None, C.Some(C.Busy), C.Some(C.Internal)})
  }

  // commitPush: retries until an answer counts. Its outcome is where the protocol's driver stands,
  // and what it says of the target is so.
  method CommitPush(sha: Sha, target: C.Node, transfer: string, ghost content: Bytes, ghost clear: bool,
                    digest: Hash, rpcs: seq<Rpc>)
      returns (outcome: CommitOutcome, after: C.Node, ghost replies: seq<C.Option<C.Reply>>,
          ghost handed: C.Option<Bytes>)
    requires |content| < TWO_64 && digest == ContentDigest(sha, content) && |rpcs| == C.PUSH_ATTEMPTS
    requires Open(sha, target, transfer) && (clear ==> Clear(sha, target, transfer, content))
    ensures OpenOrLanded(sha, after, transfer, content, clear, handed)
    ensures outcome.CommitLanded? ==> C.Answers(after)
    ensures outcome.CommitRefused? ==> Closed(after, transfer)
    ensures Talk(sha, target, transfer, digest, rpcs, replies, outcome, after)
    ensures Driven(C.CommitSent(0), replies)
            == match outcome case CommitLanded => C.Confirmed case CommitRefused => C.Denied
                case CommitUnknown => C.Unsure(false)
  {
    hide OpenOrLanded, Open, Clear, CallCommit, Talking;
    OpenIsOpenOrLanded(sha, target, transfer, content, clear);
    replies, after, handed := [], target, C.None;
    TalkStarts(sha, target, transfer, digest, rpcs);
    var attempt := 0;
    while attempt < C.PUSH_ATTEMPTS
      invariant 0 <= attempt == |replies| <= C.PUSH_ATTEMPTS
      invariant OpenOrLanded(sha, after, transfer, content, clear, handed)
      invariant Talking(sha, target, transfer, digest, rpcs, replies, after)
      invariant forall i :: 0 <= i < |replies| ==> Inconclusive(replies[i])
      invariant Driven(C.CommitSent(0), replies)
                == if attempt < C.PUSH_ATTEMPTS then C.CommitSent(attempt) else C.Unsure(false)
    {
      CallKeeps(sha, after, transfer, content, clear, handed, rpcs[attempt]);
      TalkGoesOn(sha, target, transfer, digest, rpcs, replies, after);
      var call := CallCommit(sha, after, transfer, digest, rpcs[attempt]);
      ghost var before := replies;
      after, replies, handed := call.node, replies + [call.reply], Handed(handed, call.handed);
      assert replies[..|replies| - 1] == before;
      if call.reply == C.Some(C.Ok) {
        return CommitLanded, after, replies, handed;
      }
      if call.reply == C.Some(C.DataLoss) {
        return CommitRefused, after, replies, handed;
      }
      attempt := attempt + 1;
      OtherReplies(call.reply);
      if call.reply == C.Some(C.NotFound) {
        break;
      }
    }
    outcome := CommitUnknown;
  }

  lemma OpenIsOpenOrLanded(sha: Sha, n: C.Node, transfer: string, content: Bytes, clear: bool)
    requires |content| < TWO_64 && Open(sha, n, transfer) && (clear ==> Clear(sha, n, transfer, content))
    ensures OpenOrLanded(sha, n, transfer, content, clear, C.None)
  {
  }
}
