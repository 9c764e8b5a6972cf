/**
  The content hasher (`FileHasherService`): a cheap partial digest of the
  first and last `partialHashSize` bytes of a file, a full digest read in
  `chunkSize` pieces, and batch hashing that processes the files in chunks of
  `maxConcurrentOperations` concurrent tasks.

  The XXH64 digest itself is not modelled: it is the deterministic function
  `digest` that a hasher is built with.  The file system is a map from URLs to
  what a read of that file yields.
 */
module FileHasher {
  import opened Wrappers
  import opened Paths
  import opened ScannedFiles
  import SkippedFiles
  import opened Hex
  import opened Sequences

  newtype byte = x: int | 0 <= x < 256
  type Bytes = seq<byte>

  /** What opening and reading a file that exists yields. */
  datatype FileEntry =
    | Readable(content: Bytes)    // opens and reads; `content` is what is on disk now
    | Unopenable                  // `FileHandle(forReadingFrom:)` fails
    | Faulty(message: string)     // opens, then every read fails with `message`

  /** A URL absent from the map does not exist. */
  type FileSystem = map<Url, FileEntry>

  datatype HashError = FileNotFound(url: Url) | ReadError(url: Url, message: string) | Cancelled

  datatype HashBatchResult = HashBatchResult(files: seq<ScannedFile>, skippedFiles: seq<SkippedFiles.SkippedFile>)

  /** The `init` parameters (sizes and counts cannot be negative in this model). */
  datatype HasherConfig = HasherConfig(
    partialHashSize: nat := 4096,
    chunkSize: nat := 65536,
    maxConcurrentOperations: nat := 4,
    smallFileThreshold: int := 8192)

  function Min(a: int, b: int): int { if a <= b then a else b }

  // ---------------------------------------------------------------------
  // Single files

  /** Existence check and `FileHandle(forReadingFrom:)`, shared by both digests. */
  function Open(file: ScannedFile, fs: FileSystem): (r: Result<FileEntry, HashError>)
    ensures r.Success? <==> file.url in fs && fs[file.url] != Unopenable
    ensures r.Success? ==> r.value == fs[file.url]
    ensures file.url !in fs ==> r == Failure(FileNotFound(file.url))
    ensures file.url in fs && fs[file.url] == Unopenable ==>
              r == Failure(ReadError(file.url, "Unable to open file for reading"))
  {
    if file.url !in fs then Failure(FileNotFound(file.url))
    else if fs[file.url] == Unopenable then Failure(ReadError(file.url, "Unable to open file for reading"))
    else Success(fs[file.url])
  }

  /**
    What `computeFullHashSync` returns.  The read loop stops at the first empty
    chunk, so a `chunkSize` of 0 digests nothing at all.
   */
  function FullHashOutcome(file: ScannedFile, fs: FileSystem, chunkSize: nat, digest: Bytes -> U64): (r: Result<string, HashError>)
    ensures r.Success? <==> file.url in fs && fs[file.url].Readable?
    ensures r.Success? && chunkSize > 0 ==> r.value == Format016llx(digest(fs[file.url].content))
    ensures r.Failure? ==> r.error != Cancelled && r.error.url == file.url && (r.error.FileNotFound? <==> file.url !in fs)
    ensures file.url in fs && fs[file.url].Faulty? ==> r == Failure(ReadError(file.url, fs[file.url].message))
  {
    match Open(file, fs)
    case Failure(e) => Failure(e)
    case Success(Faulty(m)) => Failure(ReadError(file.url, m))
    case Success(Unopenable) => Failure(ReadError(file.url, "Unable to open file for reading"))
    case Success(Readable(c)) => Success(Format016llx(digest(if chunkSize == 0 then [] else c)))
  }

  /** The offset of the trailing sample: `max(0, size - K)`, as evidently intended. */
  function LastOffset(size: nat, k: nat): (r: nat)
    ensures r <= size && (r == 0 || r + k == size)
    ensures size >= k ==> r + k == size
  {
    if size >= k then size - k else 0
  }

  /**
    The offset as written: `UInt64(size) - UInt64(K)` is an unsigned
    subtraction that traps (None) when `size < K`, before `max` is applied.
   */
  function LastOffsetAsWritten(size: nat, k: nat): (r: Option<nat>)
    ensures r.None? <==> size < k
    ensures r.Some? ==> r.value == LastOffset(size, k)
  {
    if size < k then None else Some(size - k)
  }

  /** The bytes a partial digest covers: the first `k` bytes, then `k` bytes from the offset (short reads at the end). */
  function PartialInput(c: Bytes, size: nat, k: nat): Bytes
  {
    var off := LastOffset(size, k);
    c[..Min(k, |c|)] + c[Min(off, |c|)..Min(off + k, |c|)]
  }

  /** What `computePartialHashSync` returns (with the corrected offset). */
  function PartialHashOutcome(file: ScannedFile, fs: FileSystem, k: nat, digest: Bytes -> U64): (r: Result<string, HashError>)
    ensures r.Success? <==> file.url in fs && fs[file.url].Readable?
    ensures r.Success? ==> r.value == Format016llx(digest(PartialInput(fs[file.url].content, file.size, k)))
    ensures r.Failure? ==> r.error != Cancelled && r.error.url == file.url && (r.error.FileNotFound? <==> file.url !in fs)
    ensures file.url in fs && fs[file.url].Faulty? ==> r == Failure(ReadError(file.url, fs[file.url].message))
  {
    match Open(file, fs)
    case Failure(e) => Failure(e)
    case Success(Faulty(m)) => Failure(ReadError(file.url, m))
    case Success(Unopenable) => Failure(ReadError(file.url, "Unable to open file for reading"))
    case Success(Readable(c)) => Success(Format016llx(digest(PartialInput(c, file.size, k))))
  }

  /** When the file is as large as recorded, the partial digest covers its first and its last `min(k, size)` bytes. */
  lemma PartialInputSamplesEnds(c: Bytes, k: nat)
    ensures PartialInput(c, |c|, k) == c[..Min(k, |c|)] + c[|c| - Min(k, |c|)..]
  {
  }

  /** Two files of the recorded size whose first and last `k` bytes agree have the same partial digest input. */
  lemma PartialInputDeterminedByEnds(c1: Bytes, c2: Bytes, k: nat)
    requires |c1| == |c2|
    requires c1[..Min(k, |c1|)] == c2[..Min(k, |c2|)]
    requires c1[|c1| - Min(k, |c1|)..] == c2[|c2| - Min(k, |c2|)..]
    ensures PartialInput(c1, |c1|, k) == PartialInput(c2, |c2|, k)
  {
    PartialInputSamplesEnds(c1, k);
    PartialInputSamplesEnds(c2, k);
  }

  /** Equal contents give equal partial digests: a differing partial digest proves the contents differ. */
  lemma PartialHashOfEqualContents(f1: ScannedFile, f2: ScannedFile, fs: FileSystem, k: nat, digest: Bytes -> U64)
    requires f1.size == f2.size
    requires f1.url in fs && f2.url in fs && fs[f1.url].Readable? && fs[f1.url] == fs[f2.url]
    ensures PartialHashOutcome(f1, fs, k, digest).Success?
    ensures PartialHashOutcome(f1, fs, k, digest) == PartialHashOutcome(f2, fs, k, digest)
  {
  }

  /**
    The offset trap is reachable: with `partialHashSize` 16384 (above the
    default small-file threshold of 8192) a 10000-byte file takes the partial
    path and the as-written subtraction traps, where the intended offset is 0.
   */
  lemma LastOffsetTrapWitness()
    ensures var cfg := HasherConfig(partialHashSize := 16384);
            10000 > cfg.smallFileThreshold &&
            LastOffsetAsWritten(10000, cfg.partialHashSize).None? &&
            LastOffset(10000, cfg.partialHashSize) == 0
  {
  }

  /** Whenever `partialHashSize <= smallFileThreshold` (the defaults included) the as-written offset never traps. */
  lemma LastOffsetSafeUnderThreshold(size: nat, cfg: HasherConfig)
    requires cfg.partialHashSize <= cfg.smallFileThreshold < size
    ensures LastOffsetAsWritten(size, cfg.partialHashSize) == Some(LastOffset(size, cfg.partialHashSize))
  {
  }

  /** The digest `computePartialHashes` stores as partial hash: the full digest for small files. */
  function PartialDigest(cfg: HasherConfig, digest: Bytes -> U64, fs: FileSystem, file: ScannedFile): Result<string, HashError>
  {
    if file.size <= cfg.smallFileThreshold then FullHashOutcome(file, fs, cfg.chunkSize, digest)
    else PartialHashOutcome(file, fs, cfg.partialHashSize, digest)
  }

  /** The transform of `computePartialHashes`: only the partial hash changes. */
  function PartialTransform(cfg: HasherConfig, digest: Bytes -> U64, fs: FileSystem, file: ScannedFile): (r: Result<ScannedFile, HashError>)
    ensures r.Success? <==> PartialDigest(cfg, digest, fs, file).Success?
    ensures r.Success? ==> r.value.Fixed() == file.Fixed() && r.value.fullHash == file.fullHash &&
                           r.value.partialHash == Some(PartialDigest(cfg, digest, fs, file).value)
    ensures r.Failure? ==> r.error == PartialDigest(cfg, digest, fs, file).error && r.error != Cancelled
  {
    match PartialDigest(cfg, digest, fs, file)
    case Success(s) => Success(file.WithPartialHash(s))
    case Failure(e) => Failure(e)
  }

  /** The transform of `computeFullHashes`. */
  function FullTransform(cfg: HasherConfig, digest: Bytes -> U64, fs: FileSystem, file: ScannedFile): (r: Result<ScannedFile, HashError>)
    ensures r.Success? <==> FullHashOutcome(file, fs, cfg.chunkSize, digest).Success?
    ensures r.Success? ==> r.value.Fixed() == file.Fixed() && r.value.partialHash == file.partialHash &&
                           r.value.fullHash == Some(FullHashOutcome(file, fs, cfg.chunkSize, digest).value)
    ensures r.Failure? ==> r.error == FullHashOutcome(file, fs, cfg.chunkSize, digest).error && r.error != Cancelled
  {
    match FullHashOutcome(file, fs, cfg.chunkSize, digest)
    case Success(s) => Success(file.WithFullHash(s))
    case Failure(e) => Failure(e)
  }

  /** Readable files with the same content get the same full hash; others are skipped. */
  lemma FullTransformOnContents(cfg: HasherConfig, digest: Bytes -> U64, fs: FileSystem, f1: ScannedFile, f2: ScannedFile)
    requires f1.url in fs && f2.url in fs && fs[f1.url].Readable? && fs[f1.url] == fs[f2.url]
    ensures FullTransform(cfg, digest, fs, f1).Success? && FullTransform(cfg, digest, fs, f2).Success?
    ensures FullTransform(cfg, digest, fs, f1).value.fullHash == FullTransform(cfg, digest, fs, f2).value.fullHash
  {
  }

  /** Hashing fails exactly for files that are missing, cannot be opened or cannot be read. */
  lemma FullTransformFailsOnlyOnUnreadable(cfg: HasherConfig, digest: Bytes -> U64, fs: FileSystem, f: ScannedFile)
    ensures FullTransform(cfg, digest, fs, f).Failure? <==> !(f.url in fs && fs[f.url].Readable?)
    ensures PartialTransform(cfg, digest, fs, f).Failure? <==> !(f.url in fs && fs[f.url].Readable?)
  {
  }

  /**
    At or below the threshold the partial digest is the full digest, for a
    single file and in a batch: both succeed or fail together, with one hash.
   */
  lemma SmallPartialIsFull(cfg: HasherConfig, digest: Bytes -> U64, fs: FileSystem, f: ScannedFile)
    requires f.size <= cfg.smallFileThreshold
    ensures PartialDigest(cfg, digest, fs, f) == FullHashOutcome(f, fs, cfg.chunkSize, digest)
    ensures PartialTransform(cfg, digest, fs, f).Success? <==> FullTransform(cfg, digest, fs, f).Success?
    ensures PartialTransform(cfg, digest, fs, f).Success? ==>
              PartialTransform(cfg, digest, fs, f).value.partialHash == FullTransform(cfg, digest, fs, f).value.fullHash
  {
  }

  // ---------------------------------------------------------------------
  // Batches

  /** The closure `processBatch` runs on every file. */
  type Transform = ScannedFile -> Result<ScannedFile, HashError>

  /** The closure of `computePartialHashes`. */
  function PartialHashTransform(cfg: HasherConfig, digest: Bytes -> U64, fs: FileSystem): Transform
  {
    f => PartialTransform(cfg, digest, fs, f)
  }

  /** The closure of `computeFullHashes`. */
  function FullHashTransform(cfg: HasherConfig, digest: Bytes -> U64, fs: FileSystem): Transform
  {
    f => FullTransform(cfg, digest, fs, f)
  }

  /** Neither closure throws `cancelled`: they fail only on missing or unreadable files. */
  lemma HashTransformsNeverCancel(cfg: HasherConfig, digest: Bytes -> U64, fs: FileSystem, f: ScannedFile)
    ensures PartialHashTransform(cfg, digest, fs)(f).Failure? ==>
              PartialHashTransform(cfg, digest, fs)(f).error != Cancelled && !(f.url in fs && fs[f.url].Readable?)
    ensures FullHashTransform(cfg, digest, fs)(f).Failure? ==>
              FullHashTransform(cfg, digest, fs)(f).error != Cancelled && !(f.url in fs && fs[f.url].Readable?)
  {
    FullTransformFailsOnlyOnUnreadable(cfg, digest, fs, f);
  }

  /** How one task of a batch ends. */
  datatype FileProcessResult = Hashed(file: ScannedFile) | Skipped(skipped: SkippedFiles.SkippedFile)

  /**
    The body of each `processBatch` child task: a `fileNotFound` or `readError`
    becomes a `hashingFailed` skip record.  The task rethrows `cancelled`, which
    aborts the whole batch; here a `cancelled` failure is mapped to a skip as the
    `switch`'s dead arm would.  Neither hashing closure returns `cancelled`
    (`HashTransformsNeverCancel`), so the two differ on no transform the hasher runs.
   */
  function Process(transform: Transform, file: ScannedFile): FileProcessResult
  {
    match transform(file)
    case Success(g) => Hashed(g)
    case Failure(FileNotFound(_)) => Skipped(SkippedFiles.SkippedFile(file.url, SkippedFiles.HashingFailed("File not found")))
    case Failure(ReadError(_, m)) => Skipped(SkippedFiles.SkippedFile(file.url, SkippedFiles.HashingFailed(m)))
    case Failure(Cancelled) => Skipped(SkippedFiles.SkippedFile(file.url, SkippedFiles.HashingFailed("Cancelled")))
  }

  /**
    A file is hashed exactly when its transform succeeds, into the transformed
    file; otherwise it is skipped with the error's message.
   */
  lemma ProcessOutcome(transform: Transform, file: ScannedFile)
    ensures Process(transform, file).Hashed? <==> transform(file).Success?
    ensures Process(transform, file).Hashed? ==> Process(transform, file).file == transform(file).value
    ensures transform(file).Failure? && transform(file).error.FileNotFound? ==>
              Process(transform, file) == Skipped(SkippedFiles.SkippedFile(file.url, SkippedFiles.HashingFailed("File not found")))
    ensures transform(file).Failure? && transform(file).error.ReadError? ==>
              Process(transform, file) == Skipped(SkippedFiles.SkippedFile(file.url, SkippedFiles.HashingFailed(transform(file).error.message)))
    ensures Process(transform, file).Skipped? ==>
              Process(transform, file).skipped.url == file.url && Process(transform, file).skipped.reason.HashingFailed?
  {
  }

  /** The outcome of every file of `xs`, in input order. */
  function Outcomes(xs: seq<ScannedFile>, transform: Transform): (os: seq<FileProcessResult>)
    ensures |os| == |xs|
  {
    seq(|xs|, i requires 0 <= i < |xs| => Process(transform, xs[i]))
  }

  /** The hashed files among the outcomes `os`, in their order. */
  function HashedOf(os: seq<FileProcessResult>): seq<ScannedFile>
  {
    if |os| == 0 then []
    else (if os[0].Hashed? then [os[0].file] else []) + HashedOf(os[1..])
  }

  /** The skip records among the outcomes `os`, in their order. */
  function SkippedOf(os: seq<FileProcessResult>): seq<SkippedFiles.SkippedFile>
  {
    if |os| == 0 then []
    else (if os[0].Skipped? then [os[0].skipped] else []) + SkippedOf(os[1..])
  }

  /** The hashed files of `xs`, in input order. */
  function Successes(xs: seq<ScannedFile>, transform: Transform): seq<ScannedFile>
  {
    HashedOf(Outcomes(xs, transform))
  }

  /** The skipped files of `xs`, in input order. */
  function Skips(xs: seq<ScannedFile>, transform: Transform): seq<SkippedFiles.SkippedFile>
  {
    SkippedOf(Outcomes(xs, transform))
  }

  lemma {:induction false} HashedAppend(a: seq<FileProcessResult>, b: seq<FileProcessResult>)
    ensures HashedOf(a + b) == HashedOf(a) + HashedOf(b)
    decreases |a|
  {
    if |a| == 0 {
      assert a + b == b;
    } else {
      AppendTail(a, b);
      var head := if a[0].Hashed? then [a[0].file] else [];
      assert HashedOf(a + b) == head + HashedOf(a[1..] + b);
      HashedAppend(a[1..], b);
      assert HashedOf(a) == head + HashedOf(a[1..]);
    }
  }

  lemma {:induction false} SkippedAppend(a: seq<FileProcessResult>, b: seq<FileProcessResult>)
    ensures SkippedOf(a + b) == SkippedOf(a) + SkippedOf(b)
    decreases |a|
  {
    if |a| == 0 {
      assert a + b == b;
    } else {
      AppendTail(a, b);
      var head := if a[0].Skipped? then [a[0].skipped] else [];
      assert SkippedOf(a + b) == head + SkippedOf(a[1..] + b);
      SkippedAppend(a[1..], b);
      assert SkippedOf(a) == head + SkippedOf(a[1..]);
    }
  }

  /** Splitting outcomes commutes with concatenation. */
  lemma SplitAppend(a: seq<FileProcessResult>, b: seq<FileProcessResult>)
    ensures HashedOf(a + b) == HashedOf(a) + HashedOf(b)
    ensures SkippedOf(a + b) == SkippedOf(a) + SkippedOf(b)
  {
    HashedAppend(a, b);
    SkippedAppend(a, b);
  }

  lemma SplitSnoc(os: seq<FileProcessResult>, o: FileProcessResult)
    ensures HashedOf(os + [o]) == HashedOf(os) + (if o.Hashed? then [o.file] else [])
    ensures SkippedOf(os + [o]) == SkippedOf(os) + (if o.Skipped? then [o.skipped] else [])
  {
    SplitAppend(os, [o]);
    assert [o][1..] == [];
  }

  lemma {:induction false} HashedMembers(os: seq<FileProcessResult>, g: ScannedFile)
    ensures g in HashedOf(os) <==> Hashed(g) in os
    decreases |os|
  {
    if |os| > 0 {
      HashedMembers(os[1..], g);
      AppendTail(os[..1], os[1..]);
      assert os == os[..1] + os[1..];
    }
  }

  lemma {:induction false} SkippedMembers(os: seq<FileProcessResult>, s: SkippedFiles.SkippedFile)
    ensures s in SkippedOf(os) <==> Skipped(s) in os
    decreases |os|
  {
    if |os| > 0 {
      SkippedMembers(os[1..], s);
      assert os == os[..1] + os[1..];
    }
  }

  lemma {:induction false} SplitCount(os: seq<FileProcessResult>)
    ensures |HashedOf(os)| + |SkippedOf(os)| == |os|
    decreases |os|
  {
    if |os| > 0 {
      SplitCount(os[1..]);
    }
  }

  lemma HashedRemove(b: seq<FileProcessResult>, k: nat)
    requires k < |b|
    ensures multiset(HashedOf(b)) == multiset(HashedOf([b[k]])) + multiset(HashedOf(b[..k] + b[k + 1..]))
  {
    var left, mid, right := b[..k], [b[k]], b[k + 1..];
    Decompose(b, k);
    HashedAppend(left + mid, right);
    HashedAppend(left, mid);
    HashedAppend(left, right);
    MultisetOfConcat3(HashedOf(left), HashedOf(mid), HashedOf(right));
  }

  lemma SkippedRemove(b: seq<FileProcessResult>, k: nat)
    requires k < |b|
    ensures multiset(SkippedOf(b)) == multiset(SkippedOf([b[k]])) + multiset(SkippedOf(b[..k] + b[k + 1..]))
  {
    var left, mid, right := b[..k], [b[k]], b[k + 1..];
    Decompose(b, k);
    SkippedAppend(left + mid, right);
    SkippedAppend(left, mid);
    SkippedAppend(left, right);
    MultisetOfConcat3(SkippedOf(left), SkippedOf(mid), SkippedOf(right));
  }

  /** The hashed and skipped records do not depend on the order the outcomes arrive in. */
  lemma {:induction false} SplitPermutation(a: seq<FileProcessResult>, b: seq<FileProcessResult>)
    requires multiset(a) == multiset(b)
    ensures multiset(HashedOf(a)) == multiset(HashedOf(b))
    ensures multiset(SkippedOf(a)) == multiset(SkippedOf(b))
    decreases |a|
  {
    if |a| > 0 {
      assert a[0] in multiset(b);
      var k :| 0 <= k < |b| && b[k] == a[0];
      MultisetRemoveHead(a, b, k);
      SplitPermutation(a[1..], b[..k] + b[k + 1..]);
      HashedRemove(b, k);
      SkippedRemove(b, k);
      SplitAppend(a[..1], a[1..]);
      assert a == a[..1] + a[1..];
      assert a[..1] == [b[k]];
    } else {
      assert |b| == |multiset(b)| == |multiset(a)| == 0;
    }
  }

  lemma OutcomesAppend(a: seq<ScannedFile>, b: seq<ScannedFile>, transform: Transform)
    ensures Outcomes(a + b, transform) == Outcomes(a, transform) + Outcomes(b, transform)
  {
  }

  lemma OutcomesRemoveAt(xs: seq<ScannedFile>, j: nat, transform: Transform)
    requires j < |xs|
    ensures Outcomes(xs[..j] + xs[j + 1..], transform) == Outcomes(xs, transform)[..j] + Outcomes(xs, transform)[j + 1..]
    ensures Outcomes(xs, transform)[j] == Process(transform, xs[j])
  {
  }

  /** Every hashed file comes from an input, and every input that hashes is there. */
  lemma SuccessesMembers(xs: seq<ScannedFile>, transform: Transform, g: ScannedFile)
    ensures g in Successes(xs, transform) <==> exists x :: x in xs && transform(x) == Success(g)
  {
    var os := Outcomes(xs, transform);
    HashedMembers(os, g);
    if g in Successes(xs, transform) {
      var i :| 0 <= i < |os| && os[i] == Hashed(g);
      ProcessOutcome(transform, xs[i]);
      assert xs[i] in xs;
    }
    if exists x :: x in xs && transform(x) == Success(g) {
      var x :| x in xs && transform(x) == Success(g);
      var i :| 0 <= i < |xs| && xs[i] == x;
      ProcessOutcome(transform, x);
      assert os[i] == Hashed(g);
    }
  }

  /** Every skip record names an input whose hashing failed, and every failed input has one. */
  lemma SkipsMembers(xs: seq<ScannedFile>, transform: Transform, s: SkippedFiles.SkippedFile)
    ensures s in Skips(xs, transform) <==> exists x :: x in xs && transform(x).Failure? && Process(transform, x) == Skipped(s)
  {
    var os := Outcomes(xs, transform);
    SkippedMembers(os, s);
    if s in Skips(xs, transform) {
      var i :| 0 <= i < |os| && os[i] == Skipped(s);
      ProcessOutcome(transform, xs[i]);
      assert xs[i] in xs;
    }
    if exists x :: x in xs && transform(x).Failure? && Process(transform, x) == Skipped(s) {
      var x :| x in xs && transform(x).Failure? && Process(transform, x) == Skipped(s);
      var i :| 0 <= i < |xs| && xs[i] == x;
      assert os[i] == Skipped(s);
    }
  }

  /** Every input is either hashed or skipped, never both: the counts add up. */
  lemma OutcomesCount(xs: seq<ScannedFile>, transform: Transform)
    ensures |Successes(xs, transform)| + |Skips(xs, transform)| == |xs|
  {
    SplitCount(Outcomes(xs, transform));
  }

  /** After `c` whole chunks the next chunk continues the input where they stop. */
  lemma ChunkStep<T>(xs: seq<T>, xss: seq<seq<T>>, c: nat, p: nat)
    requires Flatten(xss) == xs && c < |xss| && p <= |xs| && Flatten(xss[..c]) == xs[..p]
    ensures p + |xss[c]| <= |xs|
    ensures xs[..p + |xss[c]|] == xs[..p] + xss[c]
    ensures Flatten(xss[..c + 1]) == xs[..p + |xss[c]|]
    ensures |Flatten(xss[..c + 1])| == p + |xss[c]|
  {
    FlattenSplit(xss, c);
    FlattenSplit(xss[c..], 1);
    assert xss[c..][..1] == [xss[c]];
    assert [xss[c]][..0] == [];
    assert Flatten([xss[c]]) == xss[c];
    assert xss[c..][1..] == xss[c + 1..];
    assert xs == xs[..p] + xss[c] + Flatten(xss[c + 1..]);
    assert xss[..c + 1][..c] == xss[..c];
  }

  /**
    `stride(from: 0, to: n, by: m).map { files[$0..<min($0 + m, n)] }`: the
    chunks are non-empty, hold at most `m` files, all but the last exactly `m`,
    and concatenate back to the input.
   */
  function Chunks<T>(xs: seq<T>, m: nat): (r: seq<seq<T>>)
    requires m > 0
    ensures Flatten(r) == xs
    ensures forall c :: 0 <= c < |r| ==> 0 < |r[c]| <= m
    ensures forall c :: 0 <= c < |r| - 1 ==> |r[c]| == m
    ensures |r| == 0 <==> |xs| == 0
    decreases |xs|
  {
    if |xs| == 0 then []
    else
      var k := Min(m, |xs|);
      var rest := Chunks(xs[k..], m);
      FlattenCons(xs[..k], rest);
      assert xs[..k] + xs[k..] == xs;
      [xs[..k]] + rest
  }

  /**
    The reports `progress(processedCount, total)` made after each of `chunks`:
    the number of files in the chunks up to that one, and the total.
   */
  function Reports<T>(chunks: seq<seq<T>>, total: nat): (r: seq<(int, int)>)
    ensures |r| == |chunks|
  {
    if |chunks| == 0 then [] else Reports(chunks[..|chunks| - 1], total) + [(|Flatten(chunks)|, total)]
  }

  /** One more chunk adds one report. */
  lemma ReportsStep<T>(chunks: seq<seq<T>>, c: nat, total: nat)
    requires c < |chunks|
    ensures Reports(chunks[..c + 1], total) == Reports(chunks[..c], total) + [(|Flatten(chunks[..c + 1])|, total)]
  {
    PrefixOfPrefix(chunks, c);
  }

  /** The reports of the first `c` chunks are the first `c` reports of the whole batch. */
  lemma {:induction false} ReportsPrefix<T>(chunks: seq<seq<T>>, c: nat, total: nat)
    requires c <= |chunks|
    ensures Reports(chunks[..c], total) == Reports(chunks, total)[..c]
    decreases |chunks|
  {
    if c < |chunks| {
      var n := |chunks|;
      ReportsPrefix(chunks[..n - 1], c, total);
      assert chunks[..n - 1][..c] == chunks[..c];
    } else {
      assert chunks[..c] == chunks;
    }
  }

  /** The report after chunk `i` counts the files of the chunks up to and including `i`. */
  lemma ReportsIndex<T>(chunks: seq<seq<T>>, total: nat, i: nat)
    requires i < |chunks|
    ensures Reports(chunks, total)[i] == (|Flatten(chunks[..i + 1])|, total)
  {
    ReportsPrefix(chunks, i + 1, total);
    assert Reports(chunks[..i + 1], total)[i] == (|Flatten(chunks[..i + 1])|, total);
  }

  /** The last report of a complete non-empty batch is `(total, total)`. */
  lemma ReportsEndAtTotal<T>(xs: seq<T>, m: nat)
    requires m > 0 && |xs| > 0
    ensures var p := Reports(Chunks(xs, m), |xs|);
            |p| > 0 && p[|p| - 1] == (|xs|, |xs|)
  {
    var chunks := Chunks(xs, m);
    ReportsIndex(chunks, |xs|, |chunks| - 1);
    assert chunks[..|chunks|] == chunks;
  }

  /** Reported counts grow by one chunk each: by at least one file and at most `m`. */
  lemma ReportsIncrease<T>(xs: seq<T>, m: nat, c: nat)
    requires m > 0 && 0 < c < |Chunks(xs, m)|
    ensures var p := Reports(Chunks(xs, m), |xs|);
            p[c - 1].0 < p[c].0 <= p[c - 1].0 + m
  {
    var chunks := Chunks(xs, m);
    ReportsIndex(chunks, |xs|, c - 1);
    ReportsIndex(chunks, |xs|, c);
    assert chunks[..c + 1][..c] == chunks[..c];
    assert chunks[..c + 1][c] == chunks[c];
  }

  /** The first `c` chunks hold the first `processed` files. */
  ghost predicate ChunksSoFar(files: seq<ScannedFile>, chunks: seq<seq<ScannedFile>>, c: nat, processed: int)
  {
    Flatten(chunks) == files && c <= |chunks| &&
    0 <= processed <= |files| && Flatten(chunks[..c]) == files[..processed]
  }

  /** A chunk's outcomes, appended to those so far, are those of the longer prefix. */
  lemma OutcomesStep(files: seq<ScannedFile>, p: nat, chunk: seq<ScannedFile>, transform: Transform,
                     outs: seq<FileProcessResult>, chunkOuts: seq<FileProcessResult>)
    requires p + |chunk| <= |files| && files[..p + |chunk|] == files[..p] + chunk
    requires multiset(outs) == multiset(Outcomes(files[..p], transform)) && multiset(chunkOuts) == multiset(Outcomes(chunk, transform))
    ensures multiset(outs + chunkOuts) == multiset(Outcomes(files[..p + |chunk|], transform))
    ensures HashedOf(outs + chunkOuts) == HashedOf(outs) + HashedOf(chunkOuts)
    ensures SkippedOf(outs + chunkOuts) == SkippedOf(outs) + SkippedOf(chunkOuts)
  {
    OutcomesAppend(files[..p], chunk, transform);
    SplitAppend(outs, chunkOuts);
  }

  /**
    The state of `processBatch` after `c` chunks: `processed` files, whose
    outcomes `outs` (in completion order) are split into `successful` and
    `skipped`, and one progress report per chunk.
   */
  ghost predicate Gathered(files: seq<ScannedFile>, chunks: seq<seq<ScannedFile>>, transform: Transform, c: nat, processed: int,
                           outs: seq<FileProcessResult>, successful: seq<ScannedFile>,
                           skipped: seq<SkippedFiles.SkippedFile>, progress: seq<(int, int)>)
  {
    ChunksSoFar(files, chunks, c, processed) &&
    multiset(outs) == multiset(Outcomes(files[..processed], transform)) &&
    successful == HashedOf(outs) && skipped == SkippedOf(outs) &&
    progress == Reports(chunks[..c], |files|)
  }

  /** Once every chunk has run, the gathered results are those of the whole batch and every report was made. */
  lemma GatheredAll(files: seq<ScannedFile>, chunks: seq<seq<ScannedFile>>, transform: Transform, processed: int,
                    outs: seq<FileProcessResult>, successful: seq<ScannedFile>,
                    skipped: seq<SkippedFiles.SkippedFile>, progress: seq<(int, int)>)
    requires Gathered(files, chunks, transform, |chunks|, processed, outs, successful, skipped, progress)
    ensures multiset(successful) == multiset(Successes(files, transform))
    ensures multiset(skipped) == multiset(Skips(files, transform))
    ensures progress == Reports(chunks, |files|)
  {
    TakeAll(chunks);
    TakeAll(files);
    SplitPermutation(outs, Outcomes(files, transform));
  }

  /** The reports made so far are a prefix of those of the whole batch. */
  lemma GatheredPrefix(files: seq<ScannedFile>, chunks: seq<seq<ScannedFile>>, transform: Transform, c: nat, processed: int,
                       outs: seq<FileProcessResult>, successful: seq<ScannedFile>,
                       skipped: seq<SkippedFiles.SkippedFile>, progress: seq<(int, int)>)
    requires Gathered(files, chunks, transform, c, processed, outs, successful, skipped, progress)
    ensures |progress| == c <= |chunks| && progress == Reports(chunks, |files|)[..c]
  {
    ReportsPrefix(chunks, c, |files|);
  }

  /**
    Whether a batch runs every chunk: it is empty, or the hasher was not
    cancelled before it started and no `cancel()` arrives before its last chunk.
   */
  predicate RunsToCompletion(files: seq<ScannedFile>, m: nat, wasCancelled: bool, cancelAt: Option<nat>)
    requires m > 0
  {
    |files| == 0 || (!wasCancelled && (cancelAt.None? || cancelAt.value >= |Chunks(files, m)|))
  }

  class FileHasherService {
    const config: HasherConfig
    const digest: Bytes -> U64
    var isCancelled: bool

    constructor(digest: Bytes -> U64, config: HasherConfig)
      ensures this.config == config && this.digest == digest && !isCancelled
    {
      this.config := config;
      this.digest := digest;
      isCancelled := false;
    }

    method Cancel()
      modifies this
      ensures isCancelled
    {
      isCancelled := true;
    }

    method ResetCancellation()
      modifies this
      ensures !isCancelled
    {
      isCancelled := false;
    }

    method CheckCancelled() returns (r: Result<(), HashError>)
      ensures r.Failure? <==> isCancelled
      ensures r.Failure? ==> r.error == Cancelled
    {
      if isCancelled { return Failure(Cancelled); }
      return Success(());
    }

    /** `computeFullHashSync`: reads `chunkSize` bytes at a time until a read comes back empty. */
    static method ComputeFullHashSync(file: ScannedFile, fs: FileSystem, chunkSize: nat, digest: Bytes -> U64)
      returns (r: Result<string, HashError>)
      ensures r == FullHashOutcome(file, fs, chunkSize, digest)
    {
      var entry := Open(file, fs);
      if entry.Failure? { return Failure(entry.error); }
      match entry.value {
        case Unopenable =>
          return Failure(ReadError(file.url, "Unable to open file for reading"));
        case Faulty(m) =>
          return Failure(ReadError(file.url, m));
        case Readable(content) =>
          var fed: Bytes := [];
          var pos := 0;
          while true
            invariant 0 <= pos <= |content|
            invariant fed == content[..pos]
            invariant chunkSize == 0 ==> pos == 0
            decreases |content| - pos
          {
            var chunk := content[pos..Min(pos + chunkSize, |content|)];
            if |chunk| == 0 { break; }
            fed := fed + chunk;
            pos := pos + |chunk|;
          }
          assert chunkSize > 0 ==> pos == |content|;
          assert content[..|content|] == content;
          return Success(Format016llx(digest(fed)));
      }
    }

    /** `computeFullHash(for:)`. */
    method ComputeFullHash(file: ScannedFile, fs: FileSystem) returns (r: Result<string, HashError>)
      ensures isCancelled ==> r == Failure(Cancelled)
      ensures !isCancelled ==> r == FullHashOutcome(file, fs, config.chunkSize, digest)
    {
      var c := CheckCancelled();
      if c.Failure? { return Failure(c.error); }
      r := ComputeFullHashSync(file, fs, config.chunkSize, digest);
    }

    /** `computePartialHash(for:)`: small files are delegated to the full digest. */
    method ComputePartialHash(file: ScannedFile, fs: FileSystem) returns (r: Result<string, HashError>)
      ensures isCancelled ==> r == Failure(Cancelled)
      ensures !isCancelled ==> r == PartialDigest(config, digest, fs, file)
    {
      var c := CheckCancelled();
      if c.Failure? { return Failure(c.error); }
      if file.size <= config.smallFileThreshold {
        r := ComputeFullHash(file, fs);
        return;
      }
      r := PartialHashOutcome(file, fs, config.partialHashSize, digest);
    }

    /**
      One chunk of `processBatch`: every file gets its own task and the results
      are collected in completion order, which the model leaves open; `finished`
      is that order.
     */
    static method RunChunk(chunk: seq<ScannedFile>, transform: Transform) returns (r: HashBatchResult, ghost outs: seq<FileProcessResult>)
      ensures multiset(outs) == multiset(Outcomes(chunk, transform))
      ensures r.files == HashedOf(outs) && r.skippedFiles == SkippedOf(outs)
    {
      var pending := chunk;
      outs := [];
      var files: seq<ScannedFile> := [];
      var skipped: seq<SkippedFiles.SkippedFile> := [];
      while |pending| > 0
        invariant multiset(outs) + multiset(Outcomes(pending, transform)) == multiset(Outcomes(chunk, transform))
        invariant files == HashedOf(outs) && skipped == SkippedOf(outs)
        decreases |pending|
      {
        var j :| 0 <= j < |pending|;   // the next task to finish
        var f := pending[j];
        OutcomesRemoveAt(pending, j, transform);
        MultisetRemoveAt(Outcomes(pending, transform), j);
        pending := pending[..j] + pending[j + 1..];
        var outcome := Process(transform, f);
        SplitSnoc(outs, outcome);
        if outcome.Hashed? {
          files := files + [outcome.file];
        } else {
          skipped := skipped + [outcome.skipped];
        }
        outs := outs + [outcome];
      }
      return HashBatchResult(files, skipped), outs;
    }

    /**
      `processBatch`: chunks of `maxConcurrentOperations` files, a cancellation
      check before each chunk and a progress report after it.  Another task's
      `cancel()` is the environment schedule `cancelAt`: when it is `Some(c)`,
      the flag is set while the batch is suspended before chunk `c`.
     */
    method ProcessBatch(files: seq<ScannedFile>, transform: Transform, cancelAt: Option<nat>)
      returns (r: Result<HashBatchResult, HashError>, progress: seq<(int, int)>)
      requires config.maxConcurrentOperations > 0
      modifies this
      ensures r.Success? <==> RunsToCompletion(files, config.maxConcurrentOperations, old(isCancelled), cancelAt)
      ensures r.Failure? ==> r.error == Cancelled && isCancelled
      ensures r.Success? ==> isCancelled == old(isCancelled)
      ensures r.Success? ==> multiset(r.value.files) == multiset(Successes(files, transform))
      ensures r.Success? ==> multiset(r.value.skippedFiles) == multiset(Skips(files, transform))
      ensures var reports := Reports(Chunks(files, config.maxConcurrentOperations), |files|);
              |progress| <= |reports| && progress == reports[..|progress|] &&
              (r.Success? ==> progress == reports)
    {
      var chunks := Chunks(files, config.maxConcurrentOperations);
      r, progress := RunChunks(files, chunks, transform, cancelAt);
    }

    /** One round of `processBatch`'s loop: hash chunk `c` and report progress. */
    static method RunRound(files: seq<ScannedFile>, chunks: seq<seq<ScannedFile>>, transform: Transform, c: nat, processed: int,
                           ghost outs: seq<FileProcessResult>, successful: seq<ScannedFile>,
                           skipped: seq<SkippedFiles.SkippedFile>, progress: seq<(int, int)>)
      returns (processed': int, ghost outs': seq<FileProcessResult>, successful': seq<ScannedFile>,
               skipped': seq<SkippedFiles.SkippedFile>, progress': seq<(int, int)>)
      requires c < |chunks|
      requires Gathered(files, chunks, transform, c, processed, outs, successful, skipped, progress)
      ensures Gathered(files, chunks, transform, c + 1, processed', outs', successful', skipped', progress')
    {
      var chunk := chunks[c];
      var cr;
      ghost var chunkOuts;
      cr, chunkOuts := RunChunk(chunk, transform);
      ChunkStep(files, chunks, c, processed);
      OutcomesStep(files, processed, chunk, transform, outs, chunkOuts);
      ReportsStep(chunks, c, |files|);
      processed' := processed + |chunk|;
      outs' := outs + chunkOuts;
      successful' := successful + cr.files;
      skipped' := skipped + cr.skippedFiles;
      progress' := progress + [(processed + |chunk|, |files|)];
    }

    /** The loop of `processBatch` over its chunks. */
    method RunChunks(files: seq<ScannedFile>, chunks: seq<seq<ScannedFile>>, transform: Transform, cancelAt: Option<nat>)
      returns (r: Result<HashBatchResult, HashError>, progress: seq<(int, int)>)
      requires Flatten(chunks) == files
      requires |chunks| == 0 <==> |files| == 0
      modifies this
      ensures r.Success? <==> |files| == 0 || (!old(isCancelled) && (cancelAt.None? || cancelAt.value >= |chunks|))
      ensures r.Failure? ==> r.error == Cancelled && isCancelled
      ensures r.Success? ==> isCancelled == old(isCancelled)
      ensures r.Success? ==> multiset(r.value.files) == multiset(Successes(files, transform))
      ensures r.Success? ==> multiset(r.value.skippedFiles) == multiset(Skips(files, transform))
      ensures |progress| <= |chunks| && progress == Reports(chunks, |files|)[..|progress|]
      ensures r.Success? ==> progress == Reports(chunks, |files|)
    {
      var processed := 0;
      var successful: seq<ScannedFile> := [];
      var skipped: seq<SkippedFiles.SkippedFile> := [];
      progress := [];
      ghost var outs: seq<FileProcessResult> := [];
      ghost var wasCancelled := isCancelled;
      var c := 0;
      assert chunks[..0] == [] && files[..0] == [];
      while c < |chunks|
        invariant c <= |chunks|
        invariant Gathered(files, chunks, transform, c, processed, outs, successful, skipped, progress)
        invariant c == 0 ==> isCancelled == wasCancelled
        invariant c > 0 ==> !isCancelled && !wasCancelled
        invariant c > 0 ==> cancelAt.None? || cancelAt.value >= c
      {
        if cancelAt.Some? && cancelAt.value == c { Cancel(); }
        if isCancelled {
          GatheredPrefix(files, chunks, transform, c, processed, outs, successful, skipped, progress);
          return Failure(Cancelled), progress;
        }
        processed, outs, successful, skipped, progress :=
          RunRound(files, chunks, transform, c, processed, outs, successful, skipped, progress);
        c := c + 1;
      }
      GatheredAll(files, chunks, transform, processed, outs, successful, skipped, progress);
      return Success(HashBatchResult(successful, skipped)), progress;
    }

    /** `computePartialHashes(for:progress:)`. */
    method ComputePartialHashes(files: seq<ScannedFile>, fs: FileSystem, cancelAt: Option<nat>)
      returns (r: Result<HashBatchResult, HashError>, progress: seq<(int, int)>)
      requires config.maxConcurrentOperations > 0
      modifies this
      ensures r.Success? <==> RunsToCompletion(files, config.maxConcurrentOperations, old(isCancelled), cancelAt)
      ensures r.Failure? ==> r.error == Cancelled && isCancelled
      ensures r.Success? ==> isCancelled == old(isCancelled)
      ensures r.Success? ==> multiset(r.value.files) == multiset(Successes(files, PartialHashTransform(config, digest, fs)))
      ensures r.Success? ==> multiset(r.value.skippedFiles) == multiset(Skips(files, PartialHashTransform(config, digest, fs)))
      ensures var reports := Reports(Chunks(files, config.maxConcurrentOperations), |files|);
              |progress| <= |reports| && progress == reports[..|progress|] &&
              (r.Success? ==> progress == reports)
    {
      if |files| == 0 {
        return Success(HashBatchResult([], [])), [];
      }
      r, progress := ProcessBatch(files, PartialHashTransform(config, digest, fs), cancelAt);
    }

    /** `computeFullHashes(for:progress:)`. */
    method ComputeFullHashes(files: seq<ScannedFile>, fs: FileSystem, cancelAt: Option<nat>)
      returns (r: Result<HashBatchResult, HashError>, progress: seq<(int, int)>)
      requires config.maxConcurrentOperations > 0
      modifies this
      ensures r.Success? <==> RunsToCompletion(files, config.maxConcurrentOperations, old(isCancelled), cancelAt)
      ensures r.Failure? ==> r.error == Cancelled && isCancelled
      ensures r.Success? ==> isCancelled == old(isCancelled)
      ensures r.Success? ==> multiset(r.value.files) == multiset(Successes(files, FullHashTransform(config, digest, fs)))
      ensures r.Success? ==> multiset(r.value.skippedFiles) == multiset(Skips(files, FullHashTransform(config, digest, fs)))
      ensures var reports := Reports(Chunks(files, config.maxConcurrentOperations), |files|);
              |progress| <= |reports| && progress == reports[..|progress|] &&
              (r.Success? ==> progress == reports)
    {
      if |files| == 0 {
        return Success(HashBatchResult([], [])), [];
      }
      r, progress := ProcessBatch(files, FullHashTransform(config, digest, fs), cancelAt);
    }
  }
}
