/** The content digest of a volume (internal/storage/digest.go).

    SHA-256 stays a parameter: any function from byte strings to 32 byte strings. Nothing here
    assumes it injective, which no such function is. The theorems name the pairs of strings whose
    hashes they compare and ask that those pairs do not collide.
  */
module Digest {

  newtype byte = x: int | 0 <= x < 256
  type Bytes = seq<byte>

  // TransferChunkBytes: frame size and digest chunk size.
  const CHUNK: nat := 0x10_0000
  const HASH_BYTES: nat := 32
  const TWO_64: nat := 0x1_0000_0000_0000_0000
  const TWO_63: nat := 0x8000_0000_0000_0000

  type uint64 = n: nat | n < TWO_64

  type Hash = b: Bytes | |b| == HASH_BYTES witness Zeros(HASH_BYTES)
  type Sha = Bytes -> Hash

  predicate NoCollision(sha: Sha, x: Bytes, y: Bytes) {
    sha(x) == sha(y) ==> x == y
  }

  function Min(a: int, b: int): int {
    if a < b then a else b
  }

  function Zeros(n: nat): Bytes {
    seq(n, _ => 0)
  }

  predicate AllZero(b: Bytes) {
    forall i :: 0 <= i < |b| ==> b[i] == 0
  }

  // ---------------------------------------------------------------------------------- chunks

  function NumChunks(size: nat): nat {
    (size + CHUNK - 1) / CHUNK
  }

  function Chunk(content: Bytes, i: nat): Bytes
    requires i < NumChunks(|content|)
  {
    content[i * CHUNK .. Min((i + 1) * CHUNK, |content|)]
  }

  // The first k chunks of two contents are the same.
  ghost predicate SameChunks(a: Bytes, b: Bytes, k: nat)
    requires k <= NumChunks(|a|) && k <= NumChunks(|b|)
  {
    k == 0 || (SameChunks(a, b, k - 1) && Chunk(a, k - 1) == Chunk(b, k - 1))
  }

  lemma {:induction false} SameChunkAt(a: Bytes, b: Bytes, k: nat, i: nat)
    requires k <= NumChunks(|a|) && k <= NumChunks(|b|)
    requires SameChunks(a, b, k) && i < k
    ensures Chunk(a, i) == Chunk(b, i)
  {
    if i < k - 1 {
      SameChunkAt(a, b, k - 1, i);
    }
  }

  // Contents that agree on their first bytes agree on the chunks those bytes fill.
  lemma {:induction false} SamePrefixSameChunks(a: Bytes, b: Bytes, n: nat, k: nat)
    requires n <= |a| && n <= |b| && a[..n] == b[..n]
    requires k * CHUNK <= n || (n == |a| == |b| && k == NumChunks(n))
    ensures k <= NumChunks(|a|) && k <= NumChunks(|b|)
    ensures SameChunks(a, b, k)
  {
    if k > 0 {
      SamePrefixSameChunks(a, b, n, k - 1);
      var lo, hi := (k - 1) * CHUNK, Min(k * CHUNK, |a|);
      assert Chunk(a, k - 1) == a[..n][lo..hi];
      assert Chunk(b, k - 1) == b[..n][lo..hi];
    }
  }

  // A byte's chunk, and its place in it.
  lemma ByteInChunk(content: Bytes, j: nat)
    requires j < |content|
    ensures j / CHUNK < NumChunks(|content|) && j % CHUNK < |Chunk(content, j / CHUNK)|
    ensures content[j] == Chunk(content, j / CHUNK)[j % CHUNK]
  {
    assert j == j / CHUNK * CHUNK + j % CHUNK;
  }

  // Two contents of one size with the same chunks are the same content.
  lemma ChunksDetermineContent(a: Bytes, b: Bytes)
    requires |a| == |b| && SameChunks(a, b, NumChunks(|a|))
    ensures a == b
  {
    hide Chunk, NumChunks, SameChunks;
    forall j | 0 <= j < |a| ensures a[j] == b[j] {
      ByteInChunk(a, j);
      ByteInChunk(b, j);
      SameChunkAt(a, b, NumChunks(|a|), j / CHUNK);
    }
  }

  // -------------------------------------------------------------------------- the hash stream

  // The chunk hashes written to the outer hash so far, latest last.
  datatype HashLog = Empty | Add(prev: HashLog, hash: Hash) {
    function Count(): nat {
      if Empty? then 0 else prev.Count() + 1
    }

    function Flatten(): (b: Bytes)
      ensures |b| == HASH_BYTES * Count()
    {
      if Empty? then [] else prev.Flatten() + hash
    }
  }

  function LogChunk(sha: Sha, log: HashLog, data: Bytes): HashLog {
    Add(log, sha(data))
  }

  // A length of a whole chunk or more counts as one whole chunk.
  function LogZeroChunk(sha: Sha, log: HashLog, length: nat): HashLog {
    Add(log, sha(Zeros(if length >= CHUNK then CHUNK else length)))
  }

  // Big endian, width bytes, higher bytes dropped.
  function BigEndian(n: nat, width: nat): (b: Bytes)
    ensures |b| == width
  {
    if width == 0 then [] else BigEndian(n / 256, width - 1) + [(n % 256) as byte]
  }

  function SumOf(sha: Sha, log: HashLog, size: uint64): Hash {
    sha(log.Flatten() + BigEndian(size, 8))
  }

  // The hashes of the first k chunks of a content, in order.
  function Log(sha: Sha, content: Bytes, k: nat): (log: HashLog)
    requires k <= NumChunks(|content|)
    ensures log.Count() == k
  {
    if k == 0 then Empty else LogChunk(sha, Log(sha, content, k - 1), Chunk(content, k - 1))
  }

  // The digest the design defines for a content, independent of how it was framed.
  function ContentDigest(sha: Sha, content: Bytes): Hash
    requires |content| < TWO_64
  {
    SumOf(sha, Log(sha, content, NumChunks(|content|)), |content|)
  }

  // DigestBuilder: the running outer hash is the stream of bytes written to it.
  class DigestBuilder {
    const sha: Sha
    ghost var log: HashLog
    var outer: Bytes

    ghost predicate Valid()
      reads this
    {
      outer == log.Flatten()
    }

    constructor (sha: Sha)
      ensures Valid() && this.sha == sha && log == Empty
    {
      this.sha := sha;
      log, outer := Empty, [];
    }

    method AddChunk(data: Bytes)
      requires Valid()
      modifies this
      ensures Valid() && log == LogChunk(sha, old(log), data) && outer == old(outer) + sha(data)
    {
      var digest := sha(data);
      outer := outer + digest;
      log := Add(log, digest);
    }

    method AddZeroChunk(length: nat)
      requires Valid()
      modifies this
      ensures Valid() && log == LogZeroChunk(sha, old(log), length)
      ensures outer == old(outer) + sha(Zeros(Min(length, CHUNK)))
    {
      var digest := sha(Zeros(if length >= CHUNK then CHUNK else length));
      outer := outer + digest;
      log := Add(log, digest);
    }

    // Finalizing also writes the size: the builder is spent, a second call would digest it twice.
    method Sum(size: uint64) returns (digest: Hash)
      requires Valid()
      modifies this
      ensures digest == SumOf(sha, old(log), size) == sha(old(outer) + BigEndian(size, 8))
      ensures outer == old(outer) + BigEndian(size, 8)
    {
      outer := outer + BigEndian(size, 8);
      digest := sha(outer);
    }
  }

  // ------------------------------------------------------------------------------- the format

  function Shifted(n: nat, bytes: nat): nat {
    if bytes == 0 then n else Shifted(n / 256, bytes - 1)
  }

  lemma {:induction false} ShiftedOnce(n: nat, bytes: nat)
    ensures Shifted(n, bytes + 1) == Shifted(n, bytes) / 256
  {
    if bytes > 0 {
      ShiftedOnce(n / 256, bytes - 1);
    }
  }

  lemma {:induction false} BigEndianDigit(n: nat, width: nat, i: nat)
    requires i < width
    ensures BigEndian(n, width)[width - 1 - i] as int == Shifted(n, i) % 256
  {
    if i > 0 {
      BigEndianDigit(n / 256, width - 1, i - 1);
    }
  }

  // The size word has its most significant byte first.
  lemma SizeWordBytes(size: uint64)
    ensures var word := BigEndian(size, 8);
            && word[0] as int == size / 0x100_0000_0000_0000 && word[1] as int == size / 0x1_0000_0000_0000 % 0x100
            && word[2] as int == size / 0x100_0000_0000 % 0x100 && word[3] as int == size / 0x1_0000_0000 % 0x100
            && word[4] as int == size / 0x100_0000 % 0x100 && word[5] as int == size / 0x1_0000 % 0x100
            && word[6] as int == size / 0x100 % 0x100 && word[7] as int == size % 0x100
  {
    forall i | 0 <= i < 8 ensures BigEndian(size, 8)[7 - i] as int == Shifted(size, i) % 256 {
      BigEndianDigit(size, 8, i);
    }
    forall i | 0 <= i < 7 ensures Shifted(size, i + 1) == Shifted(size, i) / 256 {
      ShiftedOnce(size, i);
    }
    assert Shifted(size, 1) == size / 0x100;
    assert Shifted(size, 2) == size / 0x1_0000;
    assert Shifted(size, 3) == size / 0x100_0000;
    assert Shifted(size, 4) == size / 0x1_0000_0000;
    assert Shifted(size, 5) == size / 0x100_0000_0000;
    assert Shifted(size, 6) == size / 0x1_0000_0000_0000;
    assert Shifted(size, 7) == size / 0x100_0000_0000_0000;
  }

  // The bytes that are hashed for a content: 32 for each chunk of 1 MiB, the last one perhaps
  // shorter, in the order of the chunks.
  lemma {:induction false} LogBytes(sha: Sha, content: Bytes, k: nat, i: nat)
    requires i < k <= NumChunks(|content|)
    ensures |Log(sha, content, k).Flatten()| == 32 * k && 0x10_0000 * i < |content|
    ensures Log(sha, content, k).Flatten()[32 * i .. 32 * i + 32]
            == sha(content[0x10_0000 * i .. Min(0x10_0000 * i + 0x10_0000, |content|)])
  {
    if i < k - 1 {
      LogBytes(sha, content, k - 1, i);
    }
  }

  // ------------------------------------------------------------------------------- injectivity

  ghost function Pow256(k: nat): nat {
    if k == 0 then 1 else 256 * Pow256(k - 1)
  }

  lemma {:induction false} BigEndianInjective(m: nat, n: nat, width: nat)
    requires m < Pow256(width) && n < Pow256(width)
    requires BigEndian(m, width) == BigEndian(n, width)
    ensures m == n
  {
    if width > 0 {
      var a, b := BigEndian(m / 256, width - 1), BigEndian(n / 256, width - 1);
      assert (a + [(m % 256) as byte])[..width - 1] == a;
      assert (b + [(n % 256) as byte])[..width - 1] == b;
      assert (a + [(m % 256) as byte])[width - 1] == (b + [(n % 256) as byte])[width - 1];
      BigEndianInjective(m / 256, n / 256, width - 1);
    }
  }

  // Same size means same framing word, and the framing word pins the size.
  lemma SizeWordInjective(m: uint64, n: uint64)
    requires BigEndian(m, 8) == BigEndian(n, 8)
    ensures m == n
  {
    assert Pow256(4) == 0x1_0000_0000;
    assert Pow256(8) == 256 * (256 * (256 * (256 * Pow256(4)))) == TWO_64;
    BigEndianInjective(m, n, 8);
  }

  // A log is determined by the chunks it covers.
  lemma {:induction false} LogDependsOnChunks(sha: Sha, a: Bytes, b: Bytes, k: nat)
    requires k <= NumChunks(|a|) && k <= NumChunks(|b|)
    requires SameChunks(a, b, k)
    ensures Log(sha, a, k) == Log(sha, b, k)
  {
    if k > 0 {
      LogDependsOnChunks(sha, a, b, k - 1);
    }
  }

  // A concatenation with a known first length splits in one way.
  lemma ConcatInjective(p: Bytes, x: Bytes, q: Bytes, y: Bytes)
    requires |p| == |q| && p + x == q + y
    ensures p == q && x == y
  {
    assert (p + x)[..|p|] == p && (q + y)[..|p|] == q;
    assert (p + x)[|p|..] == x && (q + y)[|p|..] == y;
  }

  // No two chunks at the same position, among the first k, collide.
  predicate ChunksDistinguished(sha: Sha, a: Bytes, b: Bytes, k: nat)
    requires k <= NumChunks(|a|) && k <= NumChunks(|b|)
  {
    k == 0 || (ChunksDistinguished(sha, a, b, k - 1) && NoCollision(sha, Chunk(a, k - 1), Chunk(b, k - 1)))
  }

  // Unless two of the compared chunks collide, equal logs mean equal chunks.
  lemma {:induction false} LogInjective(sha: Sha, a: Bytes, b: Bytes, k: nat)
    requires k <= NumChunks(|a|) && k <= NumChunks(|b|)
    requires Log(sha, a, k) == Log(sha, b, k)
    requires ChunksDistinguished(sha, a, b, k)
    ensures SameChunks(a, b, k)
  {
    if k > 0 {
      LogInjective(sha, a, b, k - 1);
    }
  }

  // Hashes have one length, so their concatenation parses in one way.
  lemma {:induction false} FlattenInjective(p: HashLog, q: HashLog)
    requires p.Flatten() == q.Flatten()
    ensures p == q
  {
    if p.Add? && q.Add? {
      ConcatInjective(p.prev.Flatten(), p.hash, q.prev.Flatten(), q.hash);
      FlattenInjective(p.prev, q.prev);
    }
  }

  // The bytes that go through the outer hash.
  function OuterInput(log: HashLog, size: uint64): Bytes {
    log.Flatten() + BigEndian(size, 8)
  }

  // The pairs of strings whose hashes are compared when a log kept for a stored content is
  // checked against the digest of another content.
  predicate Distinguishes(sha: Sha, log: HashLog, stored: Bytes, content: Bytes)
    requires |content| < TWO_64 && |stored| < TWO_64
  {
    && NoCollision(sha, OuterInput(log, |stored|), OuterInput(Log(sha, content, NumChunks(|content|)), |content|))
    && (|stored| == |content| ==> ChunksDistinguished(sha, stored, content, NumChunks(|content|)))
  }

  // Equal digests mean equal size and equal hash logs: the number of hashes is bound too.
  lemma DigestBindsLogAndSize(sha: Sha, log: HashLog, size: uint64, content: Bytes)
    requires |content| < TWO_64
    requires SumOf(sha, log, size) == ContentDigest(sha, content)
    requires NoCollision(sha, OuterInput(log, size), OuterInput(Log(sha, content, NumChunks(|content|)), |content|))
    ensures size == |content|
    ensures log == Log(sha, content, NumChunks(|content|))
  {
    var other := Log(sha, content, NumChunks(|content|));
    ConcatInjective(log.Flatten(), BigEndian(size, 8), other.Flatten(), BigEndian(|content|, 8));
    FlattenInjective(log, other);
    SizeWordInjective(size, |content|);
  }

  // The digest identifies a content: no two contents share one, short of a hash collision.
  lemma ContentDigestInjective(sha: Sha, a: Bytes, b: Bytes)
    requires |a| < TWO_64 && |b| < TWO_64
    requires Distinguishes(sha, Log(sha, a, NumChunks(|a|)), a, b)
    ensures ContentDigest(sha, a) == ContentDigest(sha, b) <==> a == b
  {
    if ContentDigest(sha, a) == ContentDigest(sha, b) {
      DigestBindsLogAndSize(sha, Log(sha, a, NumChunks(|a|)), |a|, b);
      LogInjective(sha, a, b, NumChunks(|a|));
      ChunksDetermineContent(a, b);
    }
  }
}
