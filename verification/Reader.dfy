/** Reading a device as frames (internal/storage/reader.go) and copying one onto another
    (internal/storage/copy.go).

    The sink callback becomes the sequence of frames it was called with and the number of frames it
    takes before it fails.
  */
module Reader {
  import opened Digest
  import opened Sessions

  datatype Frame = Frame(offset: nat, data: Bytes)

  // The non-zero chunks among the first k, each at its byte offset.
  function Frames(content: Bytes, k: nat): seq<Frame>
    requires k <= NumChunks(|content|)
  {
    if k == 0 then []
    else
      var chunk := Chunk(content, k - 1);
      Frames(content, k - 1) + if AllZero(chunk) then [] else [Frame((k - 1) * CHUNK, chunk)]
  }

  // Reads chunk by chunk. Fails when the device cannot be opened and sized, at the first chunk the
  // device or the context denies, or at the first frame the sink refuses. Frames already handed
  // over stay handed over.
  method ReadDevice(sha: Sha, device: array<byte>, opens: bool, readable: nat, sinkTakes: nat)
      returns (ok: bool, frames: seq<Frame>, digest: Hash, read: nat)
    requires device.Length < TWO_63
    ensures read <= NumChunks(device.Length) && frames == Frames(device[..], read)
    ensures ok ==> read == NumChunks(device.Length)
    ensures ok <==> opens && NumChunks(device.Length) <= readable
                    && |Frames(device[..], NumChunks(device.Length))| <= sinkTakes
    ensures ok ==> digest == ContentDigest(sha, device[..])
    ensures !opens ==> read == 0
    ensures read <= readable
    ensures !ok && opens ==>
              (read == readable <==>
               readable < NumChunks(device.Length) && |Frames(device[..], readable)| <= sinkTakes)
  {
    hide Chunk, AllZero, NumChunks;
    var builder := new DigestBuilder(sha);
    frames, read, digest := [], 0, Zeros(HASH_BYTES);
    if !opens {
      return false, frames, digest, read;
    }
    var content := device[..];
    while read < NumChunks(device.Length)
      invariant read <= NumChunks(device.Length) && device[..] == content
      invariant fresh(builder) && builder.Valid() && builder.sha == sha
      invariant builder.log == Log(sha, content, read)
      invariant frames == Frames(content, read)
      invariant read <= readable && |frames| <= sinkTakes
    {
      if read == readable {
        return false, frames, digest, read;
      }
      var chunk := ReadChunk(device, read);
      if !AllZero(chunk) {
        if |frames| == sinkTakes {
          FramesGrow(content, read + 1, NumChunks(|content|));
          if readable <= NumChunks(|content|) {
            FramesGrow(content, read + 1, readable);
          }
          return false, frames, digest, read;
        }
        frames := frames + [Frame(read * CHUNK, chunk)];
      }
      HashChunk(builder, chunk);
      read := read + 1;
    }
    digest := builder.Sum(device.Length);
    ok := true;
  }

  method ReadChunk(device: array<byte>, k: nat) returns (chunk: Bytes)
    requires k < NumChunks(device.Length)
    ensures chunk == Chunk(device[..], k) && |chunk| <= CHUNK
  {
    chunk := device[k * CHUNK .. Min((k + 1) * CHUNK, device.Length)];
  }

  // Zero chunks take the precomputed hash.
  method HashChunk(builder: DigestBuilder, chunk: Bytes)
    requires builder.Valid() && |chunk| <= CHUNK
    modifies builder
    ensures builder.Valid() && builder.log == LogChunk(builder.sha, old(builder.log), chunk)
  {
    if AllZero(chunk) {
      assert chunk == Zeros(|chunk|);
      builder.AddZeroChunk(|chunk|);
    } else {
      builder.AddChunk(chunk);
    }
  }

  // What is handed over is never a chunk of zeros: each frame holds the bytes of the device from an
  // aligned offset up to the next one or the end, and the offsets increase.
  lemma {:induction false} FramesAreChunks(content: Bytes, k: nat, i: nat)
    requires k <= NumChunks(|content|) && i < |Frames(content, k)|
    ensures var frame := Frames(content, k)[i];
            && frame.offset % CHUNK == 0 && frame.offset < |content| && frame.offset < k * CHUNK
            && frame.data == content[frame.offset .. Min(frame.offset + CHUNK, |content|)]
            && (exists j :: 0 <= j < |frame.data| && frame.data[j] != 0)
            && (i > 0 ==> Frames(content, k)[i - 1].offset < frame.offset)
  {
    hide AllZero;
    var before := Frames(content, k - 1);
    if i < |before| {
      FramesAreChunks(content, k - 1, i);
    } else {
      NotAllZero(Chunk(content, k - 1));
      if i > 0 {
        FramesAreChunks(content, k - 1, i - 1);
      }
    }
  }

  lemma NotAllZero(b: Bytes)
    requires !AllZero(b)
    ensures exists j :: 0 <= j < |b| && b[j] != 0
  {
  }

  lemma {:induction false} FramesGrow(content: Bytes, j: nat, k: nat)
    requires j <= k <= NumChunks(|content|)
    ensures |Frames(content, j)| <= |Frames(content, k)|
  {
    if j < k {
      FramesGrow(content, j, k - 1);
    }
  }

  // ------------------------------------------------------------------------------- CopyDevice

  function Apply(target: Bytes, frames: seq<Frame>): (b: Bytes)
    requires forall i :: 0 <= i < |frames| ==> frames[i].offset + |frames[i].data| <= |target|
    ensures |b| == |target|
  {
    if frames == [] then target
    else
      var last := frames[|frames| - 1];
      Overwrite(Apply(target, frames[..|frames| - 1]), last.offset, last.data)
  }

  predicate FramesFit(frames: seq<Frame>, size: nat) {
    forall i :: 0 <= i < |frames| ==> frames[i].offset + |frames[i].data| <= size
  }

  lemma {:induction false} FramesInBounds(content: Bytes, k: nat)
    requires k <= NumChunks(|content|)
    ensures FramesFit(Frames(content, k), |content|)
  {
    if k > 0 {
      FramesInBounds(content, k - 1);
    }
  }

  // A content with everything from some offset on replaced by zeros.
  function Head(content: Bytes, n: nat): Bytes
    requires n <= |content|
  {
    content[..n] + Zeros(|content| - n)
  }

  lemma HeadGrows(content: Bytes, k: nat)
    requires k < NumChunks(|content|)
    ensures var lo, hi, chunk := k * CHUNK, Min((k + 1) * CHUNK, |content|), Chunk(content, k);
            && Overwrite(Head(content, lo), lo, chunk) == Head(content, hi)
            && (AllZero(chunk) ==> Head(content, lo) == Head(content, hi))
  {
    var lo, hi, chunk := k * CHUNK, Min((k + 1) * CHUNK, |content|), Chunk(content, k);
    assert content[..hi] == content[..lo] + chunk;
    if AllZero(chunk) {
      assert chunk + Zeros(|content| - hi) == Zeros(|content| - lo);
    }
  }

  // The first k chunks of a content, zeros behind them.
  function HeadOf(content: Bytes, k: nat): (b: Bytes)
    ensures |b| == |content|
  {
    Head(content, Min(k * CHUNK, |content|))
  }

  lemma HeadOfGrows(content: Bytes, k: nat)
    requires k < NumChunks(|content|)
    ensures k * CHUNK + |Chunk(content, k)| <= |content|
    ensures HeadOf(content, k + 1)
            == if AllZero(Chunk(content, k)) then HeadOf(content, k)
               else Overwrite(HeadOf(content, k), k * CHUNK, Chunk(content, k))
  {
    hide AllZero;
    HeadGrows(content, k);
  }

  lemma HeadOfNothing(content: Bytes)
    ensures HeadOf(content, 0) == Zeros(|content|)
  {
  }

  // Writing the frames over zeros restores the content they were read from.
  lemma {:induction false} FramesRestore(content: Bytes, k: nat)
    requires k <= NumChunks(|content|)
    ensures FramesFit(Frames(content, k), |content|)
    ensures Apply(Zeros(|content|), Frames(content, k)) == HeadOf(content, k)
  {
    hide HeadOf, AllZero, Chunk, NumChunks, Overwrite;
    FramesInBounds(content, k);
    if k == 0 {
      HeadOfNothing(content);
    } else {
      FramesRestore(content, k - 1);
      HeadOfGrows(content, k - 1);
      var frames := Frames(content, k);
      if !AllZero(Chunk(content, k - 1)) {
        assert frames[..|frames| - 1] == Frames(content, k - 1);
      } else {
        assert frames == Frames(content, k - 1);
      }
    }
  }

  // Copies the non-zero chunks onto a fresh target of the same size, which reads as zeros.
  method CopyDevice(sha: Sha, source: array<byte>, target: array<byte>, targetOpens: bool, sourceOpens: bool,
                    readable: nat, writable: nat, syncs: bool)
      returns (ok: bool)
    requires source.Length < TWO_63 && target.Length == source.Length && target != source
    requires target[..] == Zeros(target.Length)
    modifies target
    ensures ok ==> target[..] == source[..]
    ensures !targetOpens || !sourceOpens ==> target[..] == old(target[..])
    ensures ok <==> targetOpens && sourceOpens && syncs && NumChunks(source.Length) <= readable
                    && |Frames(source[..], NumChunks(source.Length))| <= writable
  {
    if !targetOpens {
      return false;
    }
    var read, frames, _, chunks := ReadDevice(sha, source, sourceOpens, readable, writable);
    FramesInBounds(source[..], chunks);
    var i := 0;
    while i < |frames|
      invariant 0 <= i <= |frames| && source[..] == old(source[..])
      invariant FramesFit(frames[..i], target.Length)
      invariant target[..] == Apply(old(target[..]), frames[..i])
    {
      WriteAt(target, frames[i]);
      assert frames[..i + 1][..i] == frames[..i];
      i := i + 1;
    }
    assert frames[..i] == frames;
    if read {
      FramesRestore(source[..], chunks);
      assert Head(source[..], source.Length) == source[..];
    }
    ok := read && syncs;
  }

  method WriteAt(target: array<byte>, frame: Frame)
    requires frame.offset + |frame.data| <= target.Length
    modifies target
    ensures target[..] == Overwrite(old(target[..]), frame.offset, frame.data)
  {
    var i := 0;
    while i < |frame.data|
      invariant 0 <= i <= |frame.data|
      invariant forall j :: 0 <= j < target.Length ==>
                  target[j] == if frame.offset <= j < frame.offset + i then frame.data[j - frame.offset]
                      else old(target[j])
    {
      target[frame.offset + i] := frame.data[i];
      i := i + 1;
    }
  }
}
