/** Thin pools that hand out chunks without zeroing them, and the chunk size the daemon insists on
    (checkChunkSize in internal/storage/storage.go).
  */
module ThinPool {
  import opened Digest
  import opened Sessions
  import opened Reader

  // What reads of a thin volume return, and the pool chunks it has been given.
  datatype Thin = Thin(bytes: Bytes, mapped: set<nat>)

  // The pool chunks a write touches.
  predicate Touched(p: nat, offset: nat, length: nat, c: nat)
    requires p > 0
  {
    length > 0 && offset / p <= c <= (offset + length - 1) / p
  }

  // A chunk that is handed out for a write shows whatever it held before, except under the write.
  function WriteThin(thin: Thin, p: nat, offset: nat, data: Bytes, stale: Bytes): (r: Thin)
    requires p > 0 && offset + |data| <= |thin.bytes| == |stale|
    ensures |r.bytes| == |thin.bytes|
  {
    var size := |thin.bytes|;
    Thin(
      seq(size, i requires 0 <= i < size =>
        if offset <= i < offset + |data| then data[i - offset]
        else if Touched(p, offset, |data|, i / p) && i / p !in thin.mapped then stale[i]
        else thin.bytes[i]),
      thin.mapped + set c: nat | c <= (offset + |data|) / p && Touched(p, offset, |data|, c))
  }

  // Every accepted frame has this form.
  predicate WellFormed(frame: Frame, size: nat) {
    && frame.offset % CHUNK == 0
    && 0 < |frame.data| <= CHUNK
    && frame.offset + |frame.data| <= size
    && (|frame.data| == CHUNK || frame.offset + |frame.data| == size)
  }

  predicate AllWellFormed(frames: seq<Frame>, size: nat) {
    forall i :: 0 <= i < |frames| ==> WellFormed(frames[i], size)
  }

  // Frames written one after the other, each over pool chunks that held what they held.
  function WriteAllThin(thin: Thin, p: nat, frames: seq<Frame>, stale: seq<Bytes>): (r: Thin)
    requires p > 0 && AllWellFormed(frames, |thin.bytes|) && |stale| == |frames|
    requires forall i :: 0 <= i < |stale| ==> |stale[i]| == |thin.bytes|
    ensures |r.bytes| == |thin.bytes|
  {
    if frames == [] then thin
    else
      var last := |frames| - 1;
      var before := WriteAllThin(thin, p, frames[..last], stale[..last]);
      WriteThin(before, p, frames[last].offset, frames[last].data, stale[last])
  }

  predicate ChunkSizeOk(p: nat) {
    p != 0 && CHUNK % p == 0
  }

  lemma Grows(j: int, k: int, p: nat)
    requires j <= k
    ensures j * p <= k * p
  {
    assert k * p - j * p == (k - j) * p;
  }

  lemma DivisionUnique(a: nat, p: nat, q: int, r: nat)
    requires p > 0 && a == q * p + r && r < p
    ensures a / p == q && a % p == r
  {
    var d := a / p;
    assert a == d * p + a % p;
    if d < q {
      Grows(d + 1, q, p);
    } else if q < d {
      Grows(q + 1, d, p);
    }
  }

  // Whole transfer chunks are whole pool chunks.
  lemma ChunkMultiple(a: nat, p: nat) returns (k: nat)
    requires ChunkSizeOk(p) && a % CHUNK == 0
    ensures a == k * p && a / p == k
  {
    var m, n := a / CHUNK, CHUNK / p;
    assert CHUNK == n * p;
    assert a == m * CHUNK == m * (n * p) == (m * n) * p;
    k := m * n;
    DivisionUnique(a, p, k, 0);
  }

  lemma NotBefore(p: nat, offset: nat, i: nat)
    requires ChunkSizeOk(p) && offset % CHUNK == 0 && offset / p <= i / p
    ensures offset <= i
  {
    var first := ChunkMultiple(offset, p);
    assert i == (i / p) * p + i % p;
    Grows(first, i / p, p);
  }

  lemma NotBehind(p: nat, end: nat, i: nat)
    requires ChunkSizeOk(p) && end % CHUNK == 0 && end > 0 && i / p <= (end - 1) / p
    ensures i < end
  {
    var next := ChunkMultiple(end, p);
    DivisionUnique(end - 1, p, next - 1, p - 1);
    assert i == (i / p) * p + i % p;
    Grows(i / p, next - 1, p);
  }

  // The pool chunks a frame touches lie under the frame or beyond the end of the volume.
  lemma FrameCoversItsChunks(p: nat, frame: Frame, size: nat, i: nat)
    requires ChunkSizeOk(p) && WellFormed(frame, size) && i < size
    requires Touched(p, frame.offset, |frame.data|, i / p)
    ensures frame.offset <= i < frame.offset + |frame.data|
  {
    NotBefore(p, frame.offset, i);
    if frame.offset + |frame.data| < size {
      NotBehind(p, frame.offset + |frame.data|, i);
    }
  }

  lemma WriteIsOverwrite(thin: Thin, p: nat, frame: Frame, stale: Bytes)
    requires ChunkSizeOk(p) && WellFormed(frame, |thin.bytes|) && |stale| == |thin.bytes|
    ensures WriteThin(thin, p, frame.offset, frame.data, stale).bytes == Overwrite(thin.bytes, frame.offset, frame.data)
  {
    var r := WriteThin(thin, p, frame.offset, frame.data, stale).bytes;
    forall i | 0 <= i < |r| ensures r[i] == Overwrite(thin.bytes, frame.offset, frame.data)[i] {
      if Touched(p, frame.offset, |frame.data|, i / p) {
        FrameCoversItsChunks(p, frame, |r|, i);
      }
    }
  }

  // On a pool that passes the check no stale byte ever shows.
  lemma {:induction false} NoStaleData(thin: Thin, p: nat, frames: seq<Frame>, stale: seq<Bytes>)
    requires ChunkSizeOk(p) && AllWellFormed(frames, |thin.bytes|) && |stale| == |frames|
    requires forall i :: 0 <= i < |stale| ==> |stale[i]| == |thin.bytes|
    ensures WriteAllThin(thin, p, frames, stale).bytes == Apply(thin.bytes, frames)
  {
    if frames != [] {
      var last := |frames| - 1;
      NoStaleData(thin, p, frames[..last], stale[..last]);
      WriteIsOverwrite(WriteAllThin(thin, p, frames[..last], stale[..last]), p, frames[last], stale[last]);
    }
  }

  ghost predicate NeverStale(p: nat)
    requires p > 0
  {
    forall size: nat, frames, stale: seq<Bytes> ::
      AllWellFormed(frames, size) && |stale| == |frames| && (forall i :: 0 <= i < |stale| ==> |stale[i]| == size)
      ==> WriteAllThin(Thin(Zeros(size), {}), p, frames, stale).bytes == Apply(Zeros(size), frames)
  }

  // The check is exact: a pool it refuses can show stale bytes.
  lemma CheckIsExact(p: nat)
    requires p > 0
    ensures ChunkSizeOk(p) <==> NeverStale(p)
  {
    if ChunkSizeOk(p) {
      forall size: nat, frames, stale: seq<Bytes>
        | AllWellFormed(frames, size) && |stale| == |frames| && (forall i :: 0 <= i < |stale| ==> |stale[i]| == size)
        ensures WriteAllThin(Thin(Zeros(size), {}), p, frames, stale).bytes == Apply(Zeros(size), frames)
      {
        NoStaleData(Thin(Zeros(size), {}), p, frames, stale);
      }
    } else {
      StaleByte(p);
    }
  }

  lemma StraddlingChunk(p: nat)
    requires p > 0 && CHUNK % p != 0
    ensures Touched(p, 0, CHUNK, CHUNK / p)
  {
    DivisionUnique(CHUNK - 1, p, CHUNK / p, CHUNK % p - 1);
    DivisionUnique(0, p, 0, 0);
  }

  // One full frame at the start of a longer volume leaves a stale byte right behind it.
  lemma StaleByte(p: nat)
    requires p > 0 && !ChunkSizeOk(p)
    ensures !NeverStale(p)
  {
    hide Touched, NeverStale;
    StraddlingChunk(p);
    var size, frame := 2 * CHUNK, Frame(0, Zeros(CHUNK));
    var frames, stale := [frame], [seq(size, _ => 1 as byte)];
    assert frames[..0] == [] && stale[..0] == [];
    var blank := Thin(Zeros(size), {});
    assert WriteAllThin(blank, p, frames, stale) == WriteThin(blank, p, 0, frame.data, stale[0]);
    assert WriteThin(blank, p, 0, frame.data, stale[0]).bytes[CHUNK] == 1;
    assert Apply(Zeros(size), frames) == Overwrite(Zeros(size), 0, frame.data);
    Refuted(p, size, frames, stale);
  }

  lemma Refuted(p: nat, size: nat, frames: seq<Frame>, stale: seq<Bytes>)
    requires p > 0 && AllWellFormed(frames, size) && |stale| == |frames| && forall i :: 0 <= i < |stale| ==>
              |stale[i]| == size
    requires WriteAllThin(Thin(Zeros(size), {}), p, frames, stale).bytes != Apply(Zeros(size), frames)
    ensures !NeverStale(p)
  {
  }

  // ------------------------------------------------------------------- who writes such frames

  // Frames from anyone, on any pool the check lets pass: the thin volume reads as the receiver's
  // ideal device does.
  lemma ReceivedIsThin(sha: Sha, rcv: Receiver, thin: Thin, p: nat, offset: uint64, data: Bytes, stale: Bytes)
    requires ChunkSizeOk(p) && Sound(sha, rcv) && thin.bytes == rcv.device && |stale| == |rcv.device|
    requires WriteFrame(sha, rcv, offset, data, Stored).error.Accepted?
    ensures offset + |data| <= |thin.bytes|
    ensures WriteThin(thin, p, offset, data, stale).bytes == WriteFrame(sha, rcv, offset, data, Stored).after.device
  {
    AcceptedFrame(sha, rcv, offset, data, Stored);
    WriteIsOverwrite(thin, p, Frame(offset, data), stale);
  }

  lemma {:induction false} FramesWellFormed(content: Bytes, k: nat)
    requires k <= NumChunks(|content|)
    ensures AllWellFormed(Frames(content, k), |content|)
  {
    if k > 0 {
      FramesWellFormed(content, k - 1);
    }
  }

  // A copy onto a fresh thin volume reads as its source, zero chunks never written included.
  lemma CopyOnThin(content: Bytes, p: nat, stale: seq<Bytes>)
    requires ChunkSizeOk(p) && |stale| == |Frames(content, NumChunks(|content|))|
    requires forall i :: 0 <= i < |stale| ==> |stale[i]| == |content|
    ensures AllWellFormed(Frames(content, NumChunks(|content|)), |content|)
    ensures WriteAllThin(Thin(Zeros(|content|), {}), p, Frames(content, NumChunks(|content|)), stale).bytes == content
  {
    var k := NumChunks(|content|);
    FramesWellFormed(content, k);
    NoStaleData(Thin(Zeros(|content|), {}), p, Frames(content, k), stale);
    FramesRestore(content, k);
    assert Head(content, |content|) == content;
  }
}
