/**
  The staged duplicate detector (`DuplicateDetectorService`).  Files are
  grouped by size; the groups of large files are narrowed by a partial
  digest; the survivors and every small-file group are fully hashed; files
  with the same size and full digest form the duplicate groups, sorted by the
  space they would free.

  The detector and its hasher run as actors; another task's `cancel()` is an
  environment schedule (`CancelPoint`), and `progress` callbacks are
  collected into a sequence of events.
 */
module DuplicateDetector {
  import opened Wrappers
  import opened ScannedFiles
  import SkippedFiles
  import opened DuplicateGroups
  import P = ScanProgresses
  import opened FileHasher
  import opened Grouping
  import opened Sequences
  import opened Decimal
  import opened Hex

  /** `DetectionResult` */
  datatype DetectionResult = DetectionResult(duplicateGroups: seq<DuplicateGroup>, skippedFiles: seq<SkippedFiles.SkippedFile>)

  // ---------------------------------------------------------------------
  // Dictionary keys

  /** `"\(size)-\(hash)"`: the dictionary key of both hash stages. */
  function HashKey(size: nat, hash: string): string
  {
    DecimalString(size) + "-" + hash
  }

  /** The index of the first '-' in `s` (`|s|` when there is none). */
  function FirstDash(s: string): (i: nat)
    ensures i <= |s|
  {
    if |s| == 0 || s[0] == '-' then 0 else 1 + FirstDash(s[1..])
  }

  lemma {:induction false} FirstDashAfterDigits(d: string, h: string)
    requires forall i :: 0 <= i < |d| ==> IsDigit(d[i])
    ensures FirstDash(d + "-" + h) == |d|
    decreases |d|
  {
    if |d| > 0 {
      assert (d + "-" + h)[1..] == d[1..] + "-" + h;
      FirstDashAfterDigits(d[1..], h);
    }
  }

  /** A key names one size and one hash: the digits of the size end at its first '-'. */
  lemma HashKeyInjective(s1: nat, h1: string, s2: nat, h2: string)
    requires HashKey(s1, h1) == HashKey(s2, h2)
    ensures s1 == s2 && h1 == h2
  {
    var d1, d2, k := DecimalString(s1), DecimalString(s2), HashKey(s1, h1);
    FirstDashAfterDigits(d1, h1);
    FirstDashAfterDigits(d2, h2);
    assert d1 == k[..|d1|] && d2 == k[..|d2|];
    DecimalStringInjective(s1, s2);
    assert h1 == k[|d1| + 1..] && h2 == k[|d2| + 1..];
  }

  /** The key of `groupBySize` and `rebuildSizeGroups`. */
  function SizeKey(f: ScannedFile): Option<nat>
  {
    Some(f.size)
  }

  /** The key of `filterPotentialDuplicates`: a missing partial hash counts as "none". */
  function PartialKey(f: ScannedFile): Option<string>
  {
    Some(HashKey(f.size, f.partialHash.GetOr("none")))
  }

  /** The key of `buildDuplicateGroups`; a file without a full hash is passed over. */
  function FullKey(f: ScannedFile): Option<string>
  {
    match f.fullHash
    case None => None
    case Some(h) => Some(HashKey(f.size, h))
  }

  // ---------------------------------------------------------------------
  // The stages as functions

  /** Stage 1: the files of each size that occurs at least twice. */
  function SizeGroups(files: seq<ScannedFile>): seq<seq<ScannedFile>>
  {
    MultiGroups(files, SizeKey)
  }

  /** A group goes to the small-file side when its first file is at most `threshold` bytes. */
  predicate IsSmallGroup(g: seq<ScannedFile>, threshold: int)
  {
    |g| > 0 && g[0].size <= threshold
  }

  function SmallGroups(gs: seq<seq<ScannedFile>>, threshold: int): seq<seq<ScannedFile>>
  {
    if |gs| == 0 then []
    else SmallGroups(gs[..|gs| - 1], threshold) + (if IsSmallGroup(gs[|gs| - 1], threshold) then [gs[|gs| - 1]] else [])
  }

  function LargeGroups(gs: seq<seq<ScannedFile>>, threshold: int): seq<seq<ScannedFile>>
  {
    if |gs| == 0 then []
    else LargeGroups(gs[..|gs| - 1], threshold) + (if IsSmallGroup(gs[|gs| - 1], threshold) then [] else [gs[|gs| - 1]])
  }

  /** Stage 2: within each group, the files of each size and partial hash that occurs at least twice. */
  function PotentialDuplicates(gs: seq<seq<ScannedFile>>): seq<seq<ScannedFile>>
  {
    if |gs| == 0 then [] else PotentialDuplicates(gs[..|gs| - 1]) + MultiGroups(gs[|gs| - 1], PartialKey)
  }

  /** The conversion loop of `buildDuplicateGroups` over the buckets `gs`. */
  function ToDuplicateGroups(gs: seq<seq<ScannedFile>>): seq<DuplicateGroup>
  {
    if |gs| == 0 then []
    else
      var g := gs[|gs| - 1];
      ToDuplicateGroups(gs[..|gs| - 1]) +
      (if |g| >= 2 && g[0].fullHash.Some? then [DuplicateGroup(g[0].fullHash.value, g[0].size, g)] else [])
  }

  /** Stage 4: the duplicate groups of the fully hashed files. */
  function DuplicateGroupsOf(files: seq<ScannedFile>): seq<DuplicateGroup>
  {
    ToDuplicateGroups(Groups(files, FullKey))
  }

  /** `sorted { $0.potentialSavings > $1.potentialSavings }`, as an insertion sort. */
  function SortBySavings(gs: seq<DuplicateGroup>): seq<DuplicateGroup>
  {
    if |gs| == 0 then [] else InsertBySavings(gs[0], SortBySavings(gs[1..]))
  }

  function InsertBySavings(d: DuplicateGroup, s: seq<DuplicateGroup>): seq<DuplicateGroup>
  {
    if |s| == 0 || d.PotentialSavings() >= s[0].PotentialSavings() then [d] + s
    else [s[0]] + InsertBySavings(d, s[1..])
  }

  predicate SortedBySavings(gs: seq<DuplicateGroup>)
  {
    forall i, j :: 0 <= i < j < |gs| ==> gs[i].PotentialSavings() >= gs[j].PotentialSavings()
  }

  // ---------------------------------------------------------------------
  // Facts about the stages

  /** Every group of stage 1 holds two or more input files of one size: the files of that size. */
  lemma SizeGroupsSound(files: seq<ScannedFile>, g: seq<ScannedFile>)
    requires g in SizeGroups(files)
    ensures |g| >= 2 && g == Bucket(files, SizeKey, g[0].size)
    ensures forall f :: f in g ==> f in files && f.size == g[0].size
  {
    MultiGroupsSound(files, SizeKey, g);
  }

  /** Every input file whose size occurs at least twice is in a group of stage 1. */
  lemma SizeGroupsComplete(files: seq<ScannedFile>, f: ScannedFile)
    requires f in files && |Bucket(files, SizeKey, f.size)| >= 2
    ensures Bucket(files, SizeKey, f.size) in SizeGroups(files) && f in Bucket(files, SizeKey, f.size)
  {
    MultiGroupsComplete(files, SizeKey, f);
    BucketMembers(files, SizeKey, f.size, f);
  }

  /** The split sends every group to exactly one side. */
  lemma {:induction false} SplitMembers(gs: seq<seq<ScannedFile>>, threshold: int, g: seq<ScannedFile>)
    ensures g in SmallGroups(gs, threshold) <==> g in gs && IsSmallGroup(g, threshold)
    ensures g in LargeGroups(gs, threshold) <==> g in gs && !IsSmallGroup(g, threshold)
    decreases |gs|
  {
    if |gs| > 0 {
      var p := gs[..|gs| - 1];
      SplitMembers(p, threshold, g);
      assert gs == p + [gs[|gs| - 1]];
    }
  }

  /** A group of stage 2 is a partial-hash bucket of one of the groups it was given. */
  lemma {:induction false} PotentialDuplicatesMembers(gs: seq<seq<ScannedFile>>, g: seq<ScannedFile>)
    ensures g in PotentialDuplicates(gs) <==> exists G :: G in gs && g in MultiGroups(G, PartialKey)
    decreases |gs|
  {
    if |gs| > 0 {
      var p := gs[..|gs| - 1];
      PotentialDuplicatesMembers(p, g);
      assert gs == p + [gs[|gs| - 1]];
    }
  }

  /** Members of a partial-hash bucket agree on size and partial hash. */
  lemma PartialBucketSound(G: seq<ScannedFile>, g: seq<ScannedFile>)
    requires g in MultiGroups(G, PartialKey)
    ensures |g| >= 2
    ensures forall f :: f in g ==> f in G && f.size == g[0].size && f.partialHash.GetOr("none") == g[0].partialHash.GetOr("none")
  {
    MultiGroupsSound(G, PartialKey, g);
    forall f | f in g ensures f.size == g[0].size && f.partialHash.GetOr("none") == g[0].partialHash.GetOr("none") {
      HashKeyInjective(f.size, f.partialHash.GetOr("none"), g[0].size, g[0].partialHash.GetOr("none"));
    }
  }

  lemma {:induction false} ToDuplicateGroupsMembers(gs: seq<seq<ScannedFile>>, d: DuplicateGroup)
    ensures d in ToDuplicateGroups(gs) <==>
              exists g: seq<ScannedFile> :: g in gs && |g| >= 2 && g[0].fullHash.Some? && d == DuplicateGroup(g[0].fullHash.value, g[0].size, g)
    decreases |gs|
  {
    if |gs| > 0 {
      var p := gs[..|gs| - 1];
      ToDuplicateGroupsMembers(p, d);
      assert gs == p + [gs[|gs| - 1]];
    }
  }

  /**
    Every duplicate group has two or more members, all of them files it was
    given, with the group's size and full hash.
   */
  lemma DuplicateGroupsSound(files: seq<ScannedFile>, d: DuplicateGroup)
    requires d in DuplicateGroupsOf(files)
    ensures d.Valid()
    ensures forall f :: f in d.files ==> f in files
  {
    ToDuplicateGroupsMembers(Groups(files, FullKey), d);
    var g: seq<ScannedFile> :| g in Groups(files, FullKey) && |g| >= 2 && g[0].fullHash.Some? && d == DuplicateGroup(g[0].fullHash.value, g[0].size, g);
    AtLeastTwoMembers(Groups(files, FullKey), g);
    MultiGroupsSound(files, FullKey, g);
    forall i | 0 <= i < |g| ensures g[i].size == d.size && g[i].fullHash == Some(d.hash) {
      assert g[i] in g;
      HashKeyInjective(g[i].size, g[i].fullHash.value, g[0].size, g[0].fullHash.value);
    }
  }

  /** Two different files with the same size and full hash share a duplicate group. */
  lemma DuplicateGroupsComplete(files: seq<ScannedFile>, a: ScannedFile, b: ScannedFile)
    requires a in files && b in files && a != b
    requires a.fullHash.Some? && a.fullHash == b.fullHash && a.size == b.size
    ensures exists d :: d in DuplicateGroupsOf(files) && a in d.files && b in d.files
  {
    SharedKeyGrouped(files, FullKey, a, b);
    var g := Bucket(files, FullKey, FullKey(a).value);
    AtLeastTwoMembers(Groups(files, FullKey), g);
    MultiGroupsSound(files, FullKey, g);
    var d := DuplicateGroup(g[0].fullHash.value, g[0].size, g);
    ToDuplicateGroupsMembers(Groups(files, FullKey), d);
  }

  /** Prepending a group that saves at least as much as every other keeps the order. */
  lemma SortedCons(x: DuplicateGroup, u: seq<DuplicateGroup>)
    requires SortedBySavings(u)
    requires forall y :: y in u ==> y.PotentialSavings() <= x.PotentialSavings()
    ensures SortedBySavings([x] + u)
  {
    var r := [x] + u;
    forall i, j | 0 <= i < j < |r| ensures r[i].PotentialSavings() >= r[j].PotentialSavings() {
      assert r[j] == u[j - 1];
      if i > 0 {
        assert r[i] == u[i - 1];
      }
    }
  }

  lemma {:induction false} InsertBySavingsPermutes(d: DuplicateGroup, s: seq<DuplicateGroup>)
    ensures multiset(InsertBySavings(d, s)) == multiset(s) + multiset{d}
    decreases |s|
  {
    if |s| > 0 && d.PotentialSavings() < s[0].PotentialSavings() {
      InsertBySavingsPermutes(d, s[1..]);
      assert s == [s[0]] + s[1..];
    }
  }

  lemma {:induction false} InsertBySavingsSorted(d: DuplicateGroup, s: seq<DuplicateGroup>)
    requires SortedBySavings(s)
    ensures SortedBySavings(InsertBySavings(d, s))
    decreases |s|
  {
    if |s| == 0 || d.PotentialSavings() >= s[0].PotentialSavings() {
      forall y | y in s ensures y.PotentialSavings() <= d.PotentialSavings() {
        var k :| 0 <= k < |s| && s[k] == y;
      }
      SortedCons(d, s);
    } else {
      var t := s[1..];
      InsertBySavingsSorted(d, t);
      InsertBySavingsPermutes(d, t);
      var u := InsertBySavings(d, t);
      forall y | y in u ensures y.PotentialSavings() <= s[0].PotentialSavings() {
        assert y in multiset(u);
        if y != d {
          assert y in multiset(t);
          var k :| 0 <= k < |t| && t[k] == y;
          assert s[k + 1] == y;
        }
      }
      SortedCons(s[0], u);
    }
  }

  /** The groups come out ordered by savings, none gained or lost. */
  lemma {:induction false} SortBySavingsCorrect(gs: seq<DuplicateGroup>)
    ensures SortedBySavings(SortBySavings(gs))
    ensures multiset(SortBySavings(gs)) == multiset(gs)
    decreases |gs|
  {
    if |gs| > 0 {
      SortBySavingsCorrect(gs[1..]);
      InsertBySavingsSorted(gs[0], SortBySavings(gs[1..]));
      InsertBySavingsPermutes(gs[0], SortBySavings(gs[1..]));
      assert gs == [gs[0]] + gs[1..];
    }
  }

  // ---------------------------------------------------------------------
  // The pipeline as a whole

  /** What a detection runs against: the file system, the hasher's configuration and digest, the small-file threshold. */
  datatype Env = Env(fs: FileSystem, config: HasherConfig, digest: Bytes -> U64, threshold: int)
  {
    /** The closure of `computePartialHashes`. */
    function Partial(): Transform { PartialHashTransform(config, digest, fs) }
    /** The closure of `computeFullHashes`. */
    function Full(): Transform { FullHashTransform(config, digest, fs) }
  }

  /** The file exists and can be read to the end. */
  predicate IsReadable(e: Env, f: ScannedFile)
  {
    f.url in e.fs && e.fs[f.url].Readable?
  }

  /** Both files are readable, with identical bytes. */
  predicate SameContent(e: Env, f1: ScannedFile, f2: ScannedFile)
  {
    IsReadable(e, f1) && f2.url in e.fs && e.fs[f2.url] == e.fs[f1.url]
  }

  /** `f` is one of the input files, its hashes aside. */
  ghost predicate FromInput(files: seq<ScannedFile>, f: ScannedFile)
  {
    exists f0 :: f0 in files && f0.Fixed() == f.Fixed()
  }

  /** The intermediate values of one run of `findDuplicates`. */
  datatype Trace = Trace(
    sizeGroups: seq<seq<ScannedFile>>,   // `sizeGroups`
    small: seq<seq<ScannedFile>>,        // `smallFileGroups`
    large: seq<seq<ScannedFile>>,        // `largeFileGroups`
    partialFiles: seq<ScannedFile>,      // `partialHashResult.files`
    partialSkips: seq<SkippedFiles.SkippedFile>,
    rebuilt: seq<seq<ScannedFile>>,      // `partialHashedLargeGroups`
    filtered: seq<seq<ScannedFile>>,     // `filteredLargeGroups`
    fullInput: seq<ScannedFile>,         // `filesToFullHash`
    fullFiles: seq<ScannedFile>,         // `fullHashedFiles`
    fullSkips: seq<SkippedFiles.SkippedFile>,
    built: seq<DuplicateGroup>)          // `duplicateGroups`

  /** The stages up to the full-hash input, each computed from the one before. */
  ghost predicate StagedInput(files: seq<ScannedFile>, e: Env, t: Trace)
  {
    && t.sizeGroups == SizeGroups(files)
    && t.small == SmallGroups(t.sizeGroups, e.threshold)
    && t.large == LargeGroups(t.sizeGroups, e.threshold)
    && multiset(t.partialFiles) == multiset(Successes(Flatten(t.large), e.Partial()))
    && multiset(t.partialSkips) == multiset(Skips(Flatten(t.large), e.Partial()))
    && t.rebuilt == SizeGroups(t.partialFiles)
    && t.filtered == PotentialDuplicates(t.rebuilt)
    && t.fullInput == Flatten(t.filtered) + Flatten(t.small)
  }

  /**
    A whole run: the hashed files of each batch are its successes in some
    order (the completion order within a chunk is left open), and the
    skipped files are the partial-stage skips followed by the full-stage ones.
   */
  ghost predicate Staged(files: seq<ScannedFile>, e: Env, t: Trace, result: DetectionResult)
  {
    && StagedInput(files, e, t)
    && multiset(t.fullFiles) == multiset(Successes(t.fullInput, e.Full()))
    && multiset(t.fullSkips) == multiset(Skips(t.fullInput, e.Full()))
    && t.built == DuplicateGroupsOf(t.fullFiles)
    && result.duplicateGroups == SortBySavings(t.built)
    && result.skippedFiles == t.partialSkips + t.fullSkips
  }

  /** Every group is valid, and each member is an input file whose hash is the full digest of its current content. */
  ghost predicate GroupsSound(files: seq<ScannedFile>, e: Env, groups: seq<DuplicateGroup>)
  {
    forall d :: d in groups ==>
      && d.Valid()
      && forall f :: f in d.files ==>
           FromInput(files, f) && FullHashOutcome(f, e.fs, e.config.chunkSize, e.digest) == Success(d.hash)
  }

  /** Two input files (different URLs) of the same size and identical readable content lie in one group. */
  ghost predicate GroupsComplete(files: seq<ScannedFile>, e: Env, groups: seq<DuplicateGroup>)
  {
    forall f1, f2 :: f1 in files && f2 in files && f1.url != f2.url && f1.size == f2.size && SameContent(e, f1, f2) ==>
      exists d, a, b :: d in groups && a in d.files && b in d.files && a.url == f1.url && b.url == f2.url
  }

  /** Every skip record is a hashing failure of an input file that cannot be read. */
  ghost predicate SkipsSound(files: seq<ScannedFile>, e: Env, skipped: seq<SkippedFiles.SkippedFile>)
  {
    forall s :: s in skipped ==>
      s.reason.HashingFailed? && exists f :: f in files && f.url == s.url && !IsReadable(e, f)
  }

  /** Every unreadable input file whose size occurs at least twice is reported. */
  ghost predicate SkipsComplete(files: seq<ScannedFile>, e: Env, skipped: seq<SkippedFiles.SkippedFile>)
  {
    forall f :: f in files && !IsReadable(e, f) && |Bucket(files, SizeKey, f.size)| >= 2 ==>
      exists s :: s in skipped && s.url == f.url
  }

  /** What a successful detection promises. */
  ghost predicate Detected(files: seq<ScannedFile>, e: Env, result: DetectionResult)
  {
    && GroupsSound(files, e, result.duplicateGroups)
    && SortedBySavings(result.duplicateGroups)
    && GroupsComplete(files, e, result.duplicateGroups)
    && SkipsSound(files, e, result.skippedFiles)
    && SkipsComplete(files, e, result.skippedFiles)
  }

  lemma SplitFileFromInput(files: seq<ScannedFile>, threshold: int, x: ScannedFile)
    requires x in Flatten(SmallGroups(SizeGroups(files), threshold)) || x in Flatten(LargeGroups(SizeGroups(files), threshold))
    ensures x in files
  {
    var sg := SizeGroups(files);
    FlattenMembers(SmallGroups(sg, threshold), x);
    FlattenMembers(LargeGroups(sg, threshold), x);
    var g :| (g in SmallGroups(sg, threshold) || g in LargeGroups(sg, threshold)) && x in g;
    SplitMembers(sg, threshold, g);
    SizeGroupsSound(files, g);
  }

  /** Every file handed to the full hash is an input file, at most with a partial hash added. */
  lemma FullInputFromInput(files: seq<ScannedFile>, e: Env, t: Trace, y: ScannedFile)
    requires StagedInput(files, e, t) && y in t.fullInput
    ensures FromInput(files, y)
  {
    if y in Flatten(t.small) {
      SplitFileFromInput(files, e.threshold, y);
    } else {
      FlattenMembers(t.filtered, y);
      var g :| g in t.filtered && y in g;
      PotentialDuplicatesMembers(t.rebuilt, g);
      var G :| G in t.rebuilt && g in MultiGroups(G, PartialKey);
      PartialBucketSound(G, g);
      SizeGroupsSound(t.partialFiles, G);
      assert y in multiset(t.partialFiles);
      SuccessesMembers(Flatten(t.large), e.Partial(), y);
      var x :| x in Flatten(t.large) && e.Partial()(x) == Success(y);
      SplitFileFromInput(files, e.threshold, x);
      assert PartialTransform(e.config, e.digest, e.fs, x) == Success(y);
    }
  }

  /** Every fully hashed file is an input file carrying the full digest of its content. */
  lemma FullFileSound(files: seq<ScannedFile>, e: Env, t: Trace, result: DetectionResult, q: ScannedFile)
    requires Staged(files, e, t, result) && q in t.fullFiles
    ensures FromInput(files, q) && q.fullHash.Some?
    ensures FullHashOutcome(q, e.fs, e.config.chunkSize, e.digest) == Success(q.fullHash.value)
  {
    assert q in multiset(t.fullFiles);
    SuccessesMembers(t.fullInput, e.Full(), q);
    var y :| y in t.fullInput && e.Full()(y) == Success(q);
    FullInputFromInput(files, e, t, y);
    assert FullTransform(e.config, e.digest, e.fs, y) == Success(q);
    assert Open(y, e.fs) == Open(q, e.fs);
  }

  lemma StagedGroupsSound(files: seq<ScannedFile>, e: Env, t: Trace, result: DetectionResult)
    requires Staged(files, e, t, result)
    ensures GroupsSound(files, e, result.duplicateGroups)
  {
    SortBySavingsCorrect(t.built);
    forall d | d in result.duplicateGroups
      ensures d.Valid()
      ensures forall f :: f in d.files ==>
                FromInput(files, f) && FullHashOutcome(f, e.fs, e.config.chunkSize, e.digest) == Success(d.hash)
    {
      assert d in multiset(t.built);
      DuplicateGroupsSound(t.fullFiles, d);
      forall f | f in d.files
        ensures FromInput(files, f) && FullHashOutcome(f, e.fs, e.config.chunkSize, e.digest) == Success(d.hash)
      {
        FullFileSound(files, e, t, result, f);
        var i :| 0 <= i < |d.files| && d.files[i] == f;
      }
    }
  }

  /** Two same-content files of a shared size reach the full hash, each in some version. */
  lemma ReachFullInput(files: seq<ScannedFile>, e: Env, t: Trace, f1: ScannedFile, f2: ScannedFile)
    returns (y1: ScannedFile, y2: ScannedFile)
    requires StagedInput(files, e, t)
    requires f1 in files && f2 in files && f1.url != f2.url && f1.size == f2.size && SameContent(e, f1, f2)
    ensures y1 in t.fullInput && y2 in t.fullInput
    ensures y1.url == f1.url && y2.url == f2.url && y1.size == f1.size && y2.size == f2.size
  {
    SharedKeyGrouped(files, SizeKey, f1, f2);
    var B := Bucket(files, SizeKey, f1.size);
    SplitMembers(t.sizeGroups, e.threshold, B);
    if IsSmallGroup(B, e.threshold) {
      FlattenMembers(t.small, f1);
      FlattenMembers(t.small, f2);
      y1, y2 := f1, f2;
    } else {
      FlattenMembers(t.large, f1);
      FlattenMembers(t.large, f2);
      var lf := Flatten(t.large);
      FullTransformFailsOnlyOnUnreadable(e.config, e.digest, e.fs, f1);
      FullTransformFailsOnlyOnUnreadable(e.config, e.digest, e.fs, f2);
      var p1 := PartialTransform(e.config, e.digest, e.fs, f1).value;
      var p2 := PartialTransform(e.config, e.digest, e.fs, f2).value;
      SuccessesMembers(lf, e.Partial(), p1);
      SuccessesMembers(lf, e.Partial(), p2);
      assert p1 in multiset(t.partialFiles) && p2 in multiset(t.partialFiles);
      assert Open(f1, e.fs) == Open(f2, e.fs);
      SharedKeyGrouped(t.partialFiles, SizeKey, p1, p2);
      var G := Bucket(t.partialFiles, SizeKey, p1.size);
      SharedKeyGrouped(G, PartialKey, p1, p2);
      var g := Bucket(G, PartialKey, PartialKey(p1).value);
      PotentialDuplicatesMembers(t.rebuilt, g);
      FlattenMembers(t.filtered, p1);
      FlattenMembers(t.filtered, p2);
      y1, y2 := p1, p2;
    }
  }

  lemma CompletePair(files: seq<ScannedFile>, e: Env, t: Trace, result: DetectionResult, f1: ScannedFile, f2: ScannedFile)
    requires Staged(files, e, t, result)
    requires f1 in files && f2 in files && f1.url != f2.url && f1.size == f2.size && SameContent(e, f1, f2)
    ensures exists d, a, b :: d in result.duplicateGroups && a in d.files && b in d.files && a.url == f1.url && b.url == f2.url
  {
    var y1, y2 := ReachFullInput(files, e, t, f1, f2);
    FullTransformFailsOnlyOnUnreadable(e.config, e.digest, e.fs, y1);
    FullTransformFailsOnlyOnUnreadable(e.config, e.digest, e.fs, y2);
    var q1 := FullTransform(e.config, e.digest, e.fs, y1).value;
    var q2 := FullTransform(e.config, e.digest, e.fs, y2).value;
    assert Open(y1, e.fs) == Open(y2, e.fs);
    SuccessesMembers(t.fullInput, e.Full(), q1);
    SuccessesMembers(t.fullInput, e.Full(), q2);
    assert q1 in multiset(t.fullFiles) && q2 in multiset(t.fullFiles);
    DuplicateGroupsComplete(t.fullFiles, q1, q2);
    var d :| d in t.built && q1 in d.files && q2 in d.files;
    SortBySavingsCorrect(t.built);
    assert d in multiset(result.duplicateGroups);
  }

  lemma StagedGroupsComplete(files: seq<ScannedFile>, e: Env, t: Trace, result: DetectionResult)
    requires Staged(files, e, t, result)
    ensures GroupsComplete(files, e, result.duplicateGroups)
  {
    forall f1, f2 | f1 in files && f2 in files && f1.url != f2.url && f1.size == f2.size && SameContent(e, f1, f2)
      ensures exists d, a, b :: d in result.duplicateGroups && a in d.files && b in d.files && a.url == f1.url && b.url == f2.url
    {
      CompletePair(files, e, t, result, f1, f2);
    }
  }

  lemma SkipSound(files: seq<ScannedFile>, e: Env, t: Trace, result: DetectionResult, s: SkippedFiles.SkippedFile)
    requires Staged(files, e, t, result) && s in result.skippedFiles
    ensures s.reason.HashingFailed? && exists f :: f in files && f.url == s.url && !IsReadable(e, f)
  {
    if s in t.partialSkips {
      assert s in multiset(t.partialSkips);
      SkipsMembers(Flatten(t.large), e.Partial(), s);
      var x :| x in Flatten(t.large) && e.Partial()(x).Failure? && Process(e.Partial(), x) == Skipped(s);
      SplitFileFromInput(files, e.threshold, x);
      HashTransformsNeverCancel(e.config, e.digest, e.fs, x);
      ProcessOutcome(e.Partial(), x);
    } else {
      assert s in multiset(t.fullSkips);
      SkipsMembers(t.fullInput, e.Full(), s);
      var y :| y in t.fullInput && e.Full()(y).Failure? && Process(e.Full(), y) == Skipped(s);
      FullInputFromInput(files, e, t, y);
      var f0 :| f0 in files && f0.Fixed() == y.Fixed();
      HashTransformsNeverCancel(e.config, e.digest, e.fs, y);
      ProcessOutcome(e.Full(), y);
    }
  }

  lemma SkipComplete(files: seq<ScannedFile>, e: Env, t: Trace, result: DetectionResult, f: ScannedFile)
    requires Staged(files, e, t, result)
    requires f in files && !IsReadable(e, f) && |Bucket(files, SizeKey, f.size)| >= 2
    ensures exists s :: s in result.skippedFiles && s.url == f.url
  {
    SizeGroupsComplete(files, f);
    var B := Bucket(files, SizeKey, f.size);
    SplitMembers(t.sizeGroups, e.threshold, B);
    FullTransformFailsOnlyOnUnreadable(e.config, e.digest, e.fs, f);
    if IsSmallGroup(B, e.threshold) {
      FlattenMembers(t.small, f);
      ProcessOutcome(e.Full(), f);
      var s := Process(e.Full(), f).skipped;
      SkipsMembers(t.fullInput, e.Full(), s);
      assert s in multiset(t.fullSkips);
      assert s in result.skippedFiles;
    } else {
      FlattenMembers(t.large, f);
      ProcessOutcome(e.Partial(), f);
      var s := Process(e.Partial(), f).skipped;
      SkipsMembers(Flatten(t.large), e.Partial(), s);
      assert s in multiset(t.partialSkips);
      assert s in result.skippedFiles;
    }
  }

  /** A run whose stages are as `Staged` says keeps every promise of a successful detection. */
  lemma StagedDetected(files: seq<ScannedFile>, e: Env, t: Trace, result: DetectionResult)
    requires Staged(files, e, t, result)
    ensures Detected(files, e, result)
  {
    StagedGroupsSound(files, e, t, result);
    SortBySavingsCorrect(t.built);
    StagedGroupsComplete(files, e, t, result);
    forall s | s in result.skippedFiles
      ensures s.reason.HashingFailed? && exists f :: f in files && f.url == s.url && !IsReadable(e, f)
    {
      SkipSound(files, e, t, result, s);
    }
    forall f | f in files && !IsReadable(e, f) && |Bucket(files, SizeKey, f.size)| >= 2
      ensures exists s :: s in result.skippedFiles && s.url == f.url
    {
      SkipComplete(files, e, t, result, f);
    }
  }

  /** The trace of a run that stops before any stage has output. */
  function EmptyTrace(): Trace
  {
    Trace([], [], [], [], [], [], [], [], [], [], [])
  }

  /** When no size is shared every stage is empty, and so is the result. */
  lemma NoSharedSizeStaged(files: seq<ScannedFile>, e: Env)
    requires |SizeGroups(files)| == 0
    ensures Staged(files, e, EmptyTrace(), DetectionResult([], []))
  {
    assert SizeGroups([]) == [] by {
      assert |Groups([], SizeKey)| == 0;
    }
    assert DuplicateGroupsOf([]) == [] by {
      assert |Groups([], FullKey)| == 0;
    }
  }

  // ---------------------------------------------------------------------
  // Cancellation and progress

  /** Where another task's `cancel()` arrives during `findDuplicates`. */
  datatype CancelPoint =
    | BeforeSizeCheck                  // after the grouping event, before the first check
    | BeforePartialCheck               // after the partial-hash event, before its check
    | DuringPartialHashes(chunk: nat)  // while the partial-hash batch is suspended before chunk `chunk`
    | BeforeFullCheck                  // before the check ahead of the full hashes
    | DuringFullHashes(chunk: nat)     // while the full-hash batch is suspended before chunk `chunk`
    | BeforeBuildCheck                 // after the finding-duplicates event, before the last check

  /** A cancel during the partial-hash stage is seen: before its check, or before a chunk the batch has. */
  predicate PartialCancel(largeFiles: seq<ScannedFile>, m: nat, pt: CancelPoint)
    requires m > 0
  {
    pt.BeforePartialCheck? || (pt.DuringPartialHashes? && pt.chunk < |Chunks(largeFiles, m)|)
  }

  /**
    Whether a cancel at `pt` stops the run: every point before the last
    check does, provided the run gets there (an empty input, a run without
    shared sizes or without large files skips some of them).
   */
  ghost predicate TakesEffect(files: seq<ScannedFile>, e: Env, pt: CancelPoint, fullInput: seq<ScannedFile>)
    requires e.config.maxConcurrentOperations > 0
  {
    var large := LargeGroups(SizeGroups(files), e.threshold);
    match pt
    case BeforeSizeCheck => |files| > 0
    case BeforePartialCheck => |large| > 0
    case DuringPartialHashes(c) => |large| > 0 && c < |Chunks(Flatten(large), e.config.maxConcurrentOperations)|
    case BeforeFullCheck => |SizeGroups(files)| > 0
    case DuringFullHashes(c) => |SizeGroups(files)| > 0 && c < |Chunks(fullInput, e.config.maxConcurrentOperations)|
    case BeforeBuildCheck => |SizeGroups(files)| > 0
  }

  /** `ScanProgress(phase:totalFiles:processedFiles:startTime:)` */
  function Event(phase: P.ScanPhase, total: int, processed: int, now: Date): P.ScanProgress
  {
    P.ScanProgress(phase := phase, totalFiles := total, processedFiles := processed, startTime := Some(now))
  }

  /** The events of a batch's `progress(processed, total)` reports. */
  function BatchEvents(phase: P.ScanPhase, reports: seq<(int, int)>, now: Date): (es: seq<P.ScanProgress>)
    ensures |es| == |reports|
    ensures forall i :: 0 <= i < |es| ==> es[i] == Event(phase, reports[i].1, reports[i].0, now)
  {
    seq(|reports|, i requires 0 <= i < |reports| => Event(phase, reports[i].1, reports[i].0, now))
  }

  /** The phases of `events`, each run of one phase collapsed to a single entry. */
  function PhaseRuns(events: seq<P.ScanProgress>): seq<P.ScanPhase>
  {
    if |events| == 0 then []
    else
      var r := PhaseRuns(events[..|events| - 1]);
      var ph := events[|events| - 1].phase;
      if |r| > 0 && r[|r| - 1] == ph then r else r + [ph]
  }

  lemma PhaseRunsLast(events: seq<P.ScanProgress>)
    requires |events| > 0
    ensures |PhaseRuns(events)| > 0 && PhaseRuns(events)[|PhaseRuns(events)| - 1] == events[|events| - 1].phase
  {
  }

  /** Appending a block of events of one new phase adds that phase once. */
  lemma {:induction false} PhaseRunsBlock(a: seq<P.ScanProgress>, b: seq<P.ScanProgress>, ph: P.ScanPhase)
    requires |a| > 0 && a[|a| - 1].phase != ph
    requires forall i :: 0 <= i < |b| ==> b[i].phase == ph
    ensures PhaseRuns(a + b) == PhaseRuns(a) + (if |b| > 0 then [ph] else [])
    decreases |b|
  {
    if |b| == 0 {
      assert a + b == a;
    } else {
      var b' := b[..|b| - 1];
      PhaseRunsBlock(a, b', ph);
      assert (a + b)[..|a + b| - 1] == a + b';
      PhaseRunsLast(a);
    }
  }

  /** Appending a block of events of a new phase other than `completed` to a run that has not completed. */
  lemma AppendPhaseBlock(a: seq<P.ScanProgress>, b: seq<P.ScanProgress>, ph: P.ScanPhase)
    requires |a| > 0 && a[|a| - 1].phase != ph && ph != P.Completed
    requires forall i :: 0 <= i < |b| ==> b[i].phase == ph
    requires P.Completed !in PhaseRuns(a)
    ensures PhaseRuns(a + b) == PhaseRuns(a) + (if |b| > 0 then [ph] else [])
    ensures P.Completed !in PhaseRuns(a + b)
    ensures (a + b)[|a + b| - 1].phase == if |b| > 0 then ph else a[|a| - 1].phase
  {
    PhaseRunsBlock(a, b, ph);
    if |b| == 0 {
      assert a + b == a;
    } else {
      assert (a + b)[|a + b| - 1] == b[|b| - 1];
    }
  }

  /** The phase runs of a run that reaches the end: the hashing phases appear exactly when their input is not empty. */
  function ExpectedRuns(files: seq<ScannedFile>, t: Trace): seq<P.ScanPhase>
  {
    if |files| == 0 then [P.Completed]
    else if |SizeGroups(files)| == 0 then [P.GroupingBySize, P.Completed]
    else
      [P.GroupingBySize] + (if |t.large| > 0 then [P.ComputingPartialHashes] else [])
      + (if |t.fullInput| > 0 then [P.ComputingFullHashes] else []) + [P.FindingDuplicates, P.Completed]
  }

  /** No event announces completion. */
  predicate NoCompleted(events: seq<P.ScanProgress>)
  {
    forall i :: 0 <= i < |events| ==> events[i].phase != P.Completed
  }

  /** A phase occurs among the runs exactly when some event has it. */
  lemma {:induction false} PhaseRunsMembers(events: seq<P.ScanProgress>, ph: P.ScanPhase)
    ensures ph in PhaseRuns(events) <==> exists i :: 0 <= i < |events| && events[i].phase == ph
    decreases |events|
  {
    if |events| > 0 {
      var n := |events|;
      var front := events[..n - 1];
      PhaseRunsMembers(front, ph);
      if |front| > 0 {
        PhaseRunsLast(front);
      }
      assert forall i :: 0 <= i < n - 1 ==> front[i] == events[i];
    }
  }

  /** The cancel points that lie after the partial-hash stage. */
  predicate AfterPartialStage(pt: CancelPoint)
  {
    pt.BeforeFullCheck? || pt.DuringFullHashes? || pt.BeforeBuildCheck?
  }

  /** `TakesEffect` for a run whose sizes are shared, read off its trace. */
  predicate SharedCancel(m: nat, pt: CancelPoint, t: Trace)
    requires m > 0
  {
    match pt
    case BeforeSizeCheck => true
    case BeforePartialCheck => |t.large| > 0
    case DuringPartialHashes(c) => |t.large| > 0 && c < |Chunks(Flatten(t.large), m)|
    case BeforeFullCheck => true
    case DuringFullHashes(c) => c < |Chunks(t.fullInput, m)|
    case BeforeBuildCheck => true
  }

  /** A cancel the partial-hash stage sees stops a run with shared sizes, before the later stages. */
  lemma PartialSharedCancel(m: nat, pt: CancelPoint, t: Trace)
    requires m > 0 && |t.large| > 0 && PartialCancel(Flatten(t.large), m, pt)
    ensures SharedCancel(m, pt, t) && !AfterPartialStage(pt)
  {
  }

  /** Past the partial-hash stage, a cancel takes effect exactly when the later stages see it. */
  lemma LaterSharedCancel(m: nat, pt: CancelPoint, t: Trace)
    requires m > 0 && pt != BeforeSizeCheck && !(|t.large| > 0 && PartialCancel(Flatten(t.large), m, pt))
    ensures SharedCancel(m, pt, t) <==>
              pt.BeforeFullCheck? || pt.BeforeBuildCheck? || (pt.DuringFullHashes? && pt.chunk < |Chunks(t.fullInput, m)|)
  {
  }

  lemma TakesEffectShared(files: seq<ScannedFile>, e: Env, pt: CancelPoint, t: Trace)
    requires e.config.maxConcurrentOperations > 0
    requires |SizeGroups(files)| > 0 && t.large == LargeGroups(SizeGroups(files), e.threshold)
    ensures TakesEffect(files, e, pt, t.fullInput) <==> SharedCancel(e.config.maxConcurrentOperations, pt, t)
  {
  }

  /**
    What `findDuplicates` promises about a run: when a cancel stops it, what
    the stages compute when it does not, the detection guarantees, the phases
    it announces, and its two early returns.
   */
  ghost predicate Reported(files: seq<ScannedFile>, e: Env, cancelAt: Option<CancelPoint>, now: Date,
                           r: Result<DetectionResult, HashError>, progress: seq<P.ScanProgress>, trace: Trace)
    requires e.config.maxConcurrentOperations > 0
  {
    && (r.Failure? <==> cancelAt.Some? && TakesEffect(files, e, cancelAt.value, trace.fullInput))
    && (r.Failure? ==> r.error == Cancelled && NoCompleted(progress))
    && (r.Success? || (cancelAt.Some? && AfterPartialStage(cancelAt.value)) ==> StagedInput(files, e, trace))
    && (r.Success? ==> Staged(files, e, trace, r.value) && Detected(files, e, r.value))
    && (r.Success? ==> PhaseRuns(progress) == ExpectedRuns(files, trace))
    && (r.Success? && |files| > 0 ==> |progress| > 0 && progress[|progress| - 1] == Event(P.Completed, |files|, |files|, now))
    && (|files| == 0 ==> r == Success(DetectionResult([], [])) && progress == [P.ScanProgress(phase := P.Completed)])
    && (|files| > 0 && |SizeGroups(files)| == 0 && cancelAt != Some(BeforeSizeCheck) ==>
          r == Success(DetectionResult([], [])) &&
          progress == [Event(P.GroupingBySize, |files|, 0, now), Event(P.Completed, |files|, |files|, now)])
  }

  /** No files: one completion event and an empty result. */
  lemma EmptyReported(e: Env, cancelAt: Option<CancelPoint>, now: Date)
    requires e.config.maxConcurrentOperations > 0
    ensures Reported([], e, cancelAt, now, Success(DetectionResult([], [])), [P.ScanProgress(phase := P.Completed)], EmptyTrace())
  {
    NoSharedSizeStaged([], e);
    StagedDetected([], e, EmptyTrace(), DetectionResult([], []));
  }

  /** A cancel before the first check stops a non-empty run after its grouping event. */
  lemma SizeCheckReported(files: seq<ScannedFile>, e: Env, now: Date)
    requires e.config.maxConcurrentOperations > 0
    requires |files| > 0
    ensures Reported(files, e, Some(BeforeSizeCheck), now, Failure(Cancelled), [Event(P.GroupingBySize, |files|, 0, now)], EmptyTrace())
  {
  }

  /** No shared size: the grouping event, the completion event and an empty result. */
  lemma NoSharedReported(files: seq<ScannedFile>, e: Env, cancelAt: Option<CancelPoint>, now: Date)
    requires e.config.maxConcurrentOperations > 0
    requires |files| > 0 && |SizeGroups(files)| == 0 && cancelAt != Some(BeforeSizeCheck)
    ensures var progress := [Event(P.GroupingBySize, |files|, 0, now), Event(P.Completed, |files|, |files|, now)];
            Reported(files, e, cancelAt, now, Success(DetectionResult([], [])), progress, EmptyTrace())
  {
    NoSharedSizeStaged(files, e);
    StagedDetected(files, e, EmptyTrace(), DetectionResult([], []));
    NoSharedRuns(files, now);
    if cancelAt.Some? {
      NoSharedNoEffect(files, e, cancelAt.value);
    }
  }

  /** No shared size: the grouping and completion events are the expected phase runs. */
  lemma NoSharedRuns(files: seq<ScannedFile>, now: Date)
    requires |files| > 0 && |SizeGroups(files)| == 0
    ensures PhaseRuns([Event(P.GroupingBySize, |files|, 0, now), Event(P.Completed, |files|, |files|, now)])
            == ExpectedRuns(files, EmptyTrace())
  {
    var progress := [Event(P.GroupingBySize, |files|, 0, now), Event(P.Completed, |files|, |files|, now)];
    assert PhaseRuns(progress[..1]) == [P.GroupingBySize] by {
      assert progress[..1] == [Event(P.GroupingBySize, |files|, 0, now)];
      assert progress[..1][..0] == [];
    }
  }

  /** No shared size: no cancel point other than the first check takes effect. */
  lemma NoSharedNoEffect(files: seq<ScannedFile>, e: Env, pt: CancelPoint)
    requires e.config.maxConcurrentOperations > 0
    requires |SizeGroups(files)| == 0 && pt != BeforeSizeCheck
    ensures !TakesEffect(files, e, pt, [])
  {
  }

  /**
    What stages 2 to 4 promise about a run with a shared size: when a cancel
    stops it, what the stages compute, and the phases it announces.
   */
  ghost predicate SharedOutcome(files: seq<ScannedFile>, e: Env, cancelAt: Option<CancelPoint>, now: Date,
                                r: Result<DetectionResult, HashError>, progress: seq<P.ScanProgress>, trace: Trace)
    requires e.config.maxConcurrentOperations > 0
  {
    && trace.large == LargeGroups(SizeGroups(files), e.threshold)
    && (r.Failure? <==> cancelAt.Some? && SharedCancel(e.config.maxConcurrentOperations, cancelAt.value, trace))
    && (r.Failure? ==> r.error == Cancelled && P.Completed !in PhaseRuns(progress))
    && (r.Success? || (cancelAt.Some? && AfterPartialStage(cancelAt.value)) ==> StagedInput(files, e, trace))
    && (r.Success? ==> Staged(files, e, trace, r.value))
    && (r.Success? ==>
          PhaseRuns(progress) ==
          [P.GroupingBySize] + (if |trace.large| > 0 then [P.ComputingPartialHashes] else [])
          + (if |trace.fullInput| > 0 then [P.ComputingFullHashes] else []) + [P.FindingDuplicates, P.Completed])
    && (r.Success? ==> |progress| > 0 && progress[|progress| - 1] == Event(P.Completed, |files|, |files|, now))
  }

  /** A cancel the partial-hash stage sees ends a run with a shared size as `SharedOutcome` says. */
  lemma PartialStopped(files: seq<ScannedFile>, e: Env, cancelAt: Option<CancelPoint>, now: Date,
                       progress: seq<P.ScanProgress>, trace: Trace)
    requires e.config.maxConcurrentOperations > 0
    requires trace.large == LargeGroups(SizeGroups(files), e.threshold)
    requires cancelAt.Some? && |trace.large| > 0 && PartialCancel(Flatten(trace.large), e.config.maxConcurrentOperations, cancelAt.value)
    requires P.Completed !in PhaseRuns(progress)
    ensures SharedOutcome(files, e, cancelAt, now, Failure(Cancelled), progress, trace)
  {
    PartialSharedCancel(e.config.maxConcurrentOperations, cancelAt.value, trace);
  }

  /** A run with a shared size, from what its stages establish. */
  lemma SharedReported(files: seq<ScannedFile>, e: Env, cancelAt: Option<CancelPoint>, now: Date,
                       r: Result<DetectionResult, HashError>, progress: seq<P.ScanProgress>, trace: Trace)
    requires e.config.maxConcurrentOperations > 0
    requires |SizeGroups(files)| > 0 && cancelAt != Some(BeforeSizeCheck)
    requires SharedOutcome(files, e, cancelAt, now, r, progress, trace)
    ensures Reported(files, e, cancelAt, now, r, progress, trace)
  {
    if cancelAt.Some? {
      TakesEffectShared(files, e, cancelAt.value, trace);
    }
    if r.Success? {
      StagedDetected(files, e, trace, r.value);
    } else {
      PhaseRunsMembers(progress, P.Completed);
    }
  }

  // ---------------------------------------------------------------------
  // The service

  class DuplicateDetectorService {
    const hasher: FileHasherService
    const smallFileThreshold: int
    var isCancelled: bool

    /** `init(hasherService:smallFileThreshold:)`; the source's defaults are a fresh hasher and 8192. */
    constructor(hasher: FileHasherService, smallFileThreshold: int)
      ensures this.hasher == hasher && this.smallFileThreshold == smallFileThreshold && !isCancelled
    {
      this.hasher := hasher;
      this.smallFileThreshold := smallFileThreshold;
      isCancelled := false;
    }

    /** The environment of a detection over the file system `fs`. */
    function EnvFor(fs: FileSystem): (e: Env)
      ensures e.fs == fs && e.config == hasher.config && e.digest == hasher.digest && e.threshold == smallFileThreshold
    {
      Env(fs, hasher.config, hasher.digest, smallFileThreshold)
    }

    /** `cancel()`: both the detector and its hasher stop at their next check. */
    method Cancel()
      modifies this, hasher
      ensures isCancelled && hasher.isCancelled
    {
      isCancelled := true;
      hasher.Cancel();
    }

    /** `resetCancellation()` */
    method ResetCancellation()
      modifies this, hasher
      ensures !isCancelled && !hasher.isCancelled
    {
      isCancelled := false;
      hasher.ResetCancellation();
    }

    /**
      `groupBySize`: the buckets of the size dictionary that hold two or more
      files (`SizeGroupsSound`, `SizeGroupsComplete` and `MultiGroupsDisjoint`
      state what they are).
     */
    static method GroupBySize(files: seq<ScannedFile>) returns (groups: seq<seq<ScannedFile>>)
      ensures groups == SizeGroups(files)
    {
      var keys, sizeDict := BuildDictionary(files, SizeKey);
      ValuesAreGroups(files, SizeKey, keys, sizeDict);
      groups := AtLeastTwo(Values(keys, sizeDict));
    }

    /** The loop of `findDuplicates` that separates small-file groups from large-file groups, keeping their order. */
    static method SplitBySize(groups: seq<seq<ScannedFile>>, threshold: int)
      returns (small: seq<seq<ScannedFile>>, large: seq<seq<ScannedFile>>)
      ensures small == SmallGroups(groups, threshold) && large == LargeGroups(groups, threshold)
      ensures forall g :: g in small <==> g in groups && IsSmallGroup(g, threshold)
      ensures forall g :: g in large <==> g in groups && !IsSmallGroup(g, threshold)
    {
      small, large := [], [];
      var i := 0;
      while i < |groups|
        invariant 0 <= i <= |groups|
        invariant small == SmallGroups(groups[..i], threshold) && large == LargeGroups(groups[..i], threshold)
      {
        var group := groups[i];
        assert groups[..i + 1][..i] == groups[..i];
        if |group| > 0 && group[0].size <= threshold {
          small := small + [group];
        } else {
          large := large + [group];
        }
        i := i + 1;
      }
      TakeAll(groups);
      forall g ensures (g in small <==> g in groups && IsSmallGroup(g, threshold))
                    && (g in large <==> g in groups && !IsSmallGroup(g, threshold)) {
        SplitMembers(groups, threshold, g);
      }
    }

    /**
      `filterPotentialDuplicates`: within each group, the files sharing size
      and partial hash ("none" when missing), two or more at a time.
     */
    static method FilterPotentialDuplicates(sizeGroups: seq<seq<ScannedFile>>) returns (result: seq<seq<ScannedFile>>)
      ensures result == PotentialDuplicates(sizeGroups)
      ensures forall g :: g in result ==>
                && |g| >= 2
                && (exists G :: G in sizeGroups && forall f :: f in g ==> f in G)
                && forall f :: f in g ==> f.size == g[0].size && f.partialHash.GetOr("none") == g[0].partialHash.GetOr("none")
    {
      result := [];
      var i := 0;
      while i < |sizeGroups|
        invariant 0 <= i <= |sizeGroups|
        invariant result == PotentialDuplicates(sizeGroups[..i])
      {
        var group := sizeGroups[i];
        var keys, hashDict := BuildDictionary(group, PartialKey);
        ValuesAreGroups(group, PartialKey, keys, hashDict);
        assert sizeGroups[..i + 1][..i] == sizeGroups[..i];
        result := AppendAtLeastTwo(result, Values(keys, hashDict));
        i := i + 1;
      }
      TakeAll(sizeGroups);
      forall g | g in result
        ensures (exists G :: G in sizeGroups && forall f :: f in g ==> f in G)
        ensures |g| >= 2 && forall f :: f in g ==> f.size == g[0].size && f.partialHash.GetOr("none") == g[0].partialHash.GetOr("none")
      {
        PotentialDuplicatesMembers(sizeGroups, g);
        var G :| G in sizeGroups && g in MultiGroups(G, PartialKey);
        PartialBucketSound(G, g);
      }
    }

    /**
      `buildDuplicateGroups`: the files with a full hash, bucketed by size and
      full hash; every bucket of two or more becomes a group.
     */
    static method BuildDuplicateGroups(files: seq<ScannedFile>) returns (groups: seq<DuplicateGroup>)
      ensures groups == DuplicateGroupsOf(files)
      ensures forall d :: d in groups ==> d.Valid() && forall f :: f in d.files ==> f in files
      ensures forall a, b :: a in files && b in files && a != b && a.fullHash.Some? && a.fullHash == b.fullHash && a.size == b.size ==>
                exists d :: d in groups && a in d.files && b in d.files
    {
      var keys, hashDict := BuildDictionary(files, FullKey);
      ValuesAreGroups(files, FullKey, keys, hashDict);
      var values := Values(keys, hashDict);
      groups := [];
      var i := 0;
      while i < |values|
        invariant 0 <= i <= |values|
        invariant groups == ToDuplicateGroups(values[..i])
      {
        var groupFiles := values[i];
        assert values[..i + 1][..i] == values[..i];
        if |groupFiles| >= 2 && groupFiles[0].fullHash.Some? {
          groups := groups + [DuplicateGroup(groupFiles[0].fullHash.value, groupFiles[0].size, groupFiles)];
        }
        i := i + 1;
      }
      TakeAll(values);
      forall d | d in groups ensures d.Valid() && forall f :: f in d.files ==> f in files {
        DuplicateGroupsSound(files, d);
      }
      forall a, b | a in files && b in files && a != b && a.fullHash.Some? && a.fullHash == b.fullHash && a.size == b.size
        ensures exists d :: d in groups && a in d.files && b in d.files
      {
        DuplicateGroupsComplete(files, a, b);
      }
    }

    /**
      Stage 2 of `findDuplicates`: announce the partial-hash phase, check for
      cancellation, and hash the files of the large groups. A cancel arriving
      at `cancelAt` stops the stage exactly when the stage reaches that point.
     */
    method PartialStage(large: seq<seq<ScannedFile>>, fs: FileSystem, cancelAt: Option<CancelPoint>, now: Date)
      returns (r: Result<HashBatchResult, HashError>, events: seq<P.ScanProgress>)
      requires hasher.config.maxConcurrentOperations > 0
      requires !isCancelled && !hasher.isCancelled
      modifies this, hasher
      ensures r.Failure? <==>
                cancelAt.Some? && |large| > 0 && PartialCancel(Flatten(large), hasher.config.maxConcurrentOperations, cancelAt.value)
      ensures r.Failure? ==> r.error == Cancelled && isCancelled && hasher.isCancelled
      ensures r.Success? ==> !isCancelled && !hasher.isCancelled
      ensures r.Success? ==> multiset(r.value.files) == multiset(Successes(Flatten(large), EnvFor(fs).Partial()))
      ensures r.Success? ==> multiset(r.value.skippedFiles) == multiset(Skips(Flatten(large), EnvFor(fs).Partial()))
      ensures |large| == 0 ==> r == Success(HashBatchResult([], [])) && events == []
      ensures |large| > 0 ==> |events| > 0 && events[0] == Event(P.ComputingPartialHashes, |Flatten(large)|, 0, now)
      ensures r.Success? && |large| > 0 ==>
                events[1..] == BatchEvents(P.ComputingPartialHashes,
                                           Reports(Chunks(Flatten(large), hasher.config.maxConcurrentOperations), |Flatten(large)|), now)
      ensures forall i :: 0 <= i < |events| ==> events[i].phase == P.ComputingPartialHashes
    {
      if |large| == 0 {
        return Success(HashBatchResult([], [])), [];
      }
      var largeFiles := Flatten(large);
      events := [Event(P.ComputingPartialHashes, |largeFiles|, 0, now)];
      if cancelAt == Some(BeforePartialCheck) {
        Cancel();
      }
      if isCancelled {
        return Failure(Cancelled), events;
      }
      var chunk := if cancelAt.Some? && cancelAt.value.DuringPartialHashes? then Some(cancelAt.value.chunk) else None;
      var reports;
      r, reports := hasher.ComputePartialHashes(largeFiles, fs, chunk);
      events := events + BatchEvents(P.ComputingPartialHashes, reports, now);
      if r.Failure? {
        // the cancel() that stopped the batch set the detector's flag before the hasher's
        isCancelled := true;
      }
    }

    /** Stage 3 of `findDuplicates`: announce the full-hash phase and hash `fullInput`, when it is not empty. */
    method FullStage(fullInput: seq<ScannedFile>, fs: FileSystem, cancelAt: Option<CancelPoint>, now: Date)
      returns (r: Result<HashBatchResult, HashError>, events: seq<P.ScanProgress>)
      requires hasher.config.maxConcurrentOperations > 0
      requires !isCancelled && !hasher.isCancelled
      modifies this, hasher
      ensures r.Failure? <==>
                cancelAt.Some? && cancelAt.value.DuringFullHashes? &&
                cancelAt.value.chunk < |Chunks(fullInput, hasher.config.maxConcurrentOperations)|
      ensures r.Failure? ==> r.error == Cancelled && isCancelled && hasher.isCancelled
      ensures r.Success? ==> !isCancelled && !hasher.isCancelled
      ensures r.Success? ==> multiset(r.value.files) == multiset(Successes(fullInput, EnvFor(fs).Full()))
      ensures r.Success? ==> multiset(r.value.skippedFiles) == multiset(Skips(fullInput, EnvFor(fs).Full()))
      ensures |fullInput| == 0 ==> r == Success(HashBatchResult([], [])) && events == []
      ensures |fullInput| > 0 ==> |events| > 0 && events[0] == Event(P.ComputingFullHashes, |fullInput|, 0, now)
      ensures r.Success? && |fullInput| > 0 ==>
                events[1..] == BatchEvents(P.ComputingFullHashes,
                                           Reports(Chunks(fullInput, hasher.config.maxConcurrentOperations), |fullInput|), now)
      ensures forall i :: 0 <= i < |events| ==> events[i].phase == P.ComputingFullHashes
    {
      if |fullInput| == 0 {
        return Success(HashBatchResult([], [])), [];
      }
      events := [Event(P.ComputingFullHashes, |fullInput|, 0, now)];
      var chunk := if cancelAt.Some? && cancelAt.value.DuringFullHashes? then Some(cancelAt.value.chunk) else None;
      var reports;
      r, reports := hasher.ComputeFullHashes(fullInput, fs, chunk);
      events := events + BatchEvents(P.ComputingFullHashes, reports, now);
      if r.Failure? {
        // the cancel() that stopped the batch set the detector's flag before the hasher's
        isCancelled := true;
      }
    }

    /**
      The part of `findDuplicates` from the split by size to `filesToFullHash`:
      stage 2, the rebuild of the size groups from the partially hashed files,
      and the partial-hash filter.
     */
    method Narrow(files: seq<ScannedFile>, sizeGroups: seq<seq<ScannedFile>>, fs: FileSystem, cancelAt: Option<CancelPoint>,
                  now: Date, progress: seq<P.ScanProgress>)
      returns (r: Result<(seq<SkippedFiles.SkippedFile>, seq<ScannedFile>), HashError>, progress': seq<P.ScanProgress>, ghost t: Trace)
      requires hasher.config.maxConcurrentOperations > 0
      requires sizeGroups == SizeGroups(files)
      requires !isCancelled && !hasher.isCancelled
      requires |progress| > 0 && progress[|progress| - 1].phase == P.GroupingBySize
      requires P.Completed !in PhaseRuns(progress)
      modifies this, hasher
      ensures t.large == LargeGroups(SizeGroups(files), smallFileThreshold)
      ensures r.Failure? <==>
                cancelAt.Some? && |t.large| > 0 && PartialCancel(Flatten(t.large), hasher.config.maxConcurrentOperations, cancelAt.value)
      ensures r.Failure? ==> r.error == Cancelled && isCancelled && hasher.isCancelled
      ensures r.Success? ==> !isCancelled && !hasher.isCancelled
      ensures r.Success? ==> StagedInput(files, EnvFor(fs), t) && r.value == (t.partialSkips, t.fullInput)
      ensures PhaseRuns(progress') == PhaseRuns(progress) + (if |t.large| > 0 then [P.ComputingPartialHashes] else [])
      ensures P.Completed !in PhaseRuns(progress')
      ensures r.Success? ==> |progress'| > 0 && progress'[|progress'| - 1].phase in {P.GroupingBySize, P.ComputingPartialHashes}
    {
      var small, large := SplitBySize(sizeGroups, smallFileThreshold);
      var pr, events := PartialStage(large, fs, cancelAt, now);
      progress' := progress + events;
      AppendPhaseBlock(progress, events, P.ComputingPartialHashes);
      t := Trace(sizeGroups, small, large, [], [], [], [], [], [], [], []);
      if pr.Failure? {
        return Failure(pr.error), progress', t;
      }
      var rebuilt: seq<seq<ScannedFile>> := [];
      if |large| > 0 {
        rebuilt := GroupBySize(pr.value.files);
      } else {
        assert SizeGroups([]) == [] by {
          assert |Groups([], SizeKey)| == 0;
        }
      }
      var filtered := FilterPotentialDuplicates(rebuilt);
      var fullInput := Flatten(filtered) + Flatten(small);
      t := t.(partialFiles := pr.value.files, partialSkips := pr.value.skippedFiles, rebuilt := rebuilt,
              filtered := filtered, fullInput := fullInput);
      r := Success((pr.value.skippedFiles, fullInput));
    }

    /** Stage 3 with the cancellation check before it. */
    method HashCandidates(fullInput: seq<ScannedFile>, fs: FileSystem, cancelAt: Option<CancelPoint>, now: Date,
                          progress: seq<P.ScanProgress>)
      returns (r: Result<HashBatchResult, HashError>, progress': seq<P.ScanProgress>)
      requires hasher.config.maxConcurrentOperations > 0
      requires !isCancelled && !hasher.isCancelled
      requires |progress| > 0 && progress[|progress| - 1].phase in {P.GroupingBySize, P.ComputingPartialHashes}
      requires P.Completed !in PhaseRuns(progress)
      modifies this, hasher
      ensures r.Failure? <==>
                cancelAt.Some? &&
                (cancelAt.value.BeforeFullCheck? ||
                 (cancelAt.value.DuringFullHashes? && cancelAt.value.chunk < |Chunks(fullInput, hasher.config.maxConcurrentOperations)|))
      ensures r.Failure? ==> r.error == Cancelled && isCancelled && hasher.isCancelled && P.Completed !in PhaseRuns(progress')
      ensures r.Success? ==> !isCancelled && !hasher.isCancelled
      ensures r.Success? ==> multiset(r.value.files) == multiset(Successes(fullInput, EnvFor(fs).Full()))
      ensures r.Success? ==> multiset(r.value.skippedFiles) == multiset(Skips(fullInput, EnvFor(fs).Full()))
      ensures r.Success? ==> PhaseRuns(progress') == PhaseRuns(progress) + (if |fullInput| > 0 then [P.ComputingFullHashes] else [])
      ensures r.Success? ==>
                |progress'| > 0 && progress'[|progress'| - 1].phase in {P.GroupingBySize, P.ComputingPartialHashes, P.ComputingFullHashes}
    {
      progress' := progress;
      if cancelAt == Some(BeforeFullCheck) {
        Cancel();
      }
      if isCancelled {
        return Failure(Cancelled), progress';
      }
      var events;
      r, events := FullStage(fullInput, fs, cancelAt, now);
      progress' := progress + events;
      AppendPhaseBlock(progress, events, P.ComputingFullHashes);
    }

    /** Stage 4 and the sort, with the cancellation check between them. */
    method Build(files: seq<ScannedFile>, hashed: HashBatchResult, partialSkips: seq<SkippedFiles.SkippedFile>,
                 cancelAt: Option<CancelPoint>, now: Date, progress: seq<P.ScanProgress>)
      returns (r: Result<DetectionResult, HashError>, progress': seq<P.ScanProgress>)
      requires !isCancelled && !hasher.isCancelled
      requires |progress| > 0 && progress[|progress| - 1].phase != P.FindingDuplicates
      requires P.Completed !in PhaseRuns(progress)
      modifies this, hasher
      ensures r.Failure? <==> cancelAt == Some(BeforeBuildCheck)
      ensures r.Failure? ==> r.error == Cancelled && isCancelled && hasher.isCancelled && P.Completed !in PhaseRuns(progress')
      ensures r.Success? ==> !isCancelled && !hasher.isCancelled
      ensures r.Success? ==>
                r.value == DetectionResult(SortBySavings(DuplicateGroupsOf(hashed.files)), partialSkips + hashed.skippedFiles)
      ensures r.Success? ==> PhaseRuns(progress') == PhaseRuns(progress) + [P.FindingDuplicates, P.Completed]
      ensures r.Success? ==> progress'[|progress'| - 1] == Event(P.Completed, |files|, |files|, now)
    {
      var finding := Event(P.FindingDuplicates, |hashed.files|, 0, now);
      progress' := progress + [finding];
      PhaseRunsBlock(progress, [finding], P.FindingDuplicates);
      if cancelAt == Some(BeforeBuildCheck) {
        Cancel();
      }
      if isCancelled {
        return Failure(Cancelled), progress';
      }
      var duplicateGroups := BuildDuplicateGroups(hashed.files);
      var sortedGroups := SortBySavings(duplicateGroups);
      var completed := Event(P.Completed, |files|, |files|, now);
      ghost var found := progress';
      progress' := progress' + [completed];
      PhaseRunsBlock(found, [completed], P.Completed);
      r := Success(DetectionResult(sortedGroups, partialSkips + hashed.skippedFiles));
    }

    /**
      The part of `findDuplicates` from the check before the full hashes to
      the end: stage 3, stage 4 and the sort by potential savings.
     */
    method Conclude(files: seq<ScannedFile>, fs: FileSystem, cancelAt: Option<CancelPoint>, now: Date, ghost t0: Trace,
                    partialSkips: seq<SkippedFiles.SkippedFile>, fullInput: seq<ScannedFile>, progress: seq<P.ScanProgress>)
      returns (r: Result<DetectionResult, HashError>, progress': seq<P.ScanProgress>, ghost t: Trace)
      requires hasher.config.maxConcurrentOperations > 0
      requires !isCancelled && !hasher.isCancelled
      requires StagedInput(files, EnvFor(fs), t0) && partialSkips == t0.partialSkips && fullInput == t0.fullInput
      requires |progress| > 0 && progress[|progress| - 1].phase in {P.GroupingBySize, P.ComputingPartialHashes}
      requires P.Completed !in PhaseRuns(progress)
      modifies this, hasher
      ensures t == t0.(fullFiles := t.fullFiles, fullSkips := t.fullSkips, built := t.built)
      ensures StagedInput(files, EnvFor(fs), t)
      ensures r.Failure? <==>
                cancelAt.Some? &&
                (cancelAt.value.BeforeFullCheck? || cancelAt.value.BeforeBuildCheck? ||
                 (cancelAt.value.DuringFullHashes? && cancelAt.value.chunk < |Chunks(fullInput, hasher.config.maxConcurrentOperations)|))
      ensures r.Failure? ==> r.error == Cancelled && isCancelled && hasher.isCancelled && P.Completed !in PhaseRuns(progress')
      ensures r.Success? ==> !isCancelled && !hasher.isCancelled && Staged(files, EnvFor(fs), t, r.value)
      ensures r.Success? ==>
                PhaseRuns(progress') ==
                PhaseRuns(progress) + (if |fullInput| > 0 then [P.ComputingFullHashes] else []) + [P.FindingDuplicates, P.Completed]
      ensures r.Success? ==> progress'[|progress'| - 1] == Event(P.Completed, |files|, |files|, now)
    {
      t := t0;
      var hr;
      hr, progress' := HashCandidates(fullInput, fs, cancelAt, now, progress);
      if hr.Failure? {
        return Failure(hr.error), progress', t;
      }
      ghost var hashedRuns := PhaseRuns(progress');
      r, progress' := Build(files, hr.value, partialSkips, cancelAt, now, progress');
      t := t.(fullFiles := hr.value.files, fullSkips := hr.value.skippedFiles, built := DuplicateGroupsOf(hr.value.files));
    }

    /** `findDuplicates` once some size is shared: stages 2 to 4 and the sort. */
    method DetectShared(files: seq<ScannedFile>, sizeGroups: seq<seq<ScannedFile>>, fs: FileSystem,
                        cancelAt: Option<CancelPoint>, now: Date, progress: seq<P.ScanProgress>)
      returns (r: Result<DetectionResult, HashError>, progress': seq<P.ScanProgress>, ghost trace: Trace)
      requires hasher.config.maxConcurrentOperations > 0
      requires sizeGroups == SizeGroups(files)
      requires !isCancelled && !hasher.isCancelled
      requires progress == [Event(P.GroupingBySize, |files|, 0, now)]
      requires cancelAt != Some(BeforeSizeCheck)
      modifies this, hasher
      ensures SharedOutcome(files, EnvFor(fs), cancelAt, now, r, progress', trace)
      ensures r.Failure? ==> isCancelled && hasher.isCancelled
      ensures r.Success? ==> !isCancelled && !hasher.isCancelled
    {
      assert PhaseRuns(progress) == [P.GroupingBySize];
      var narrowed;
      narrowed, progress', trace := Narrow(files, sizeGroups, fs, cancelAt, now, progress);
      if narrowed.Failure? {
        PartialStopped(files, EnvFor(fs), cancelAt, now, progress', trace);
        return Failure(narrowed.error), progress', trace;
      }
      r, progress', trace := ConcludeShared(files, fs, cancelAt, now, trace, narrowed.value.0, narrowed.value.1, progress');
    }

    /** `Conclude` after a partial-hash stage that no cancel stopped, in the terms of a whole run. */
    method ConcludeShared(files: seq<ScannedFile>, fs: FileSystem, cancelAt: Option<CancelPoint>, now: Date, ghost t0: Trace,
                          partialSkips: seq<SkippedFiles.SkippedFile>, fullInput: seq<ScannedFile>, progress: seq<P.ScanProgress>)
      returns (r: Result<DetectionResult, HashError>, progress': seq<P.ScanProgress>, ghost trace: Trace)
      requires hasher.config.maxConcurrentOperations > 0
      requires !isCancelled && !hasher.isCancelled
      requires StagedInput(files, EnvFor(fs), t0) && partialSkips == t0.partialSkips && fullInput == t0.fullInput
      requires cancelAt != Some(BeforeSizeCheck)
      requires cancelAt.Some? ==>
                 !(|t0.large| > 0 && PartialCancel(Flatten(t0.large), hasher.config.maxConcurrentOperations, cancelAt.value))
      requires |progress| > 0 && progress[|progress| - 1].phase in {P.GroupingBySize, P.ComputingPartialHashes}
      requires PhaseRuns(progress) == [P.GroupingBySize] + (if |t0.large| > 0 then [P.ComputingPartialHashes] else [])
      requires P.Completed !in PhaseRuns(progress)
      modifies this, hasher
      ensures SharedOutcome(files, EnvFor(fs), cancelAt, now, r, progress', trace)
      ensures r.Failure? ==> isCancelled && hasher.isCancelled
      ensures r.Success? ==> !isCancelled && !hasher.isCancelled
    {
      r, progress', trace := Conclude(files, fs, cancelAt, now, t0, partialSkips, fullInput, progress);
      assert trace.large == t0.large && trace.fullInput == t0.fullInput;
      if cancelAt.Some? {
        LaterSharedCancel(hasher.config.maxConcurrentOperations, cancelAt.value, trace);
      }
    }

    /**
      `findDuplicates(in:progress:)`: the progress callback's calls become the
      returned `progress`, the clock's reading is `now`, and another task's
      `cancel()` arrives at `cancelAt`, if at all. `trace` holds the
      intermediate values; `Reported` states what the run promises.
     */
    method FindDuplicates(files: seq<ScannedFile>, fs: FileSystem, cancelAt: Option<CancelPoint>, now: Date)
      returns (r: Result<DetectionResult, HashError>, progress: seq<P.ScanProgress>, ghost trace: Trace)
      requires hasher.config.maxConcurrentOperations > 0
      modifies this, hasher
      ensures Reported(files, EnvFor(fs), cancelAt, now, r, progress, trace)
      ensures r.Failure? ==> isCancelled && hasher.isCancelled
      ensures r.Success? ==> !isCancelled && !hasher.isCancelled
    {
      ResetCancellation();
      trace := EmptyTrace();
      if |files| == 0 {
        r, progress := Success(DetectionResult([], [])), [P.ScanProgress(phase := P.Completed)];
        EmptyReported(EnvFor(fs), cancelAt, now);
        return;
      }
      progress := [Event(P.GroupingBySize, |files|, 0, now)];
      if cancelAt == Some(BeforeSizeCheck) {
        Cancel();
      }
      if isCancelled {
        r := Failure(Cancelled);
        SizeCheckReported(files, EnvFor(fs), now);
        return;
      }
      var sizeGroups := GroupBySize(files);
      if |sizeGroups| == 0 {
        r, progress := Success(DetectionResult([], [])), [Event(P.GroupingBySize, |files|, 0, now), Event(P.Completed, |files|, |files|, now)];
        NoSharedReported(files, EnvFor(fs), cancelAt, now);
        return;
      }
      r, progress, trace := DetectShared(files, sizeGroups, fs, cancelAt, now, progress);
      SharedReported(files, EnvFor(fs), cancelAt, now, r, progress, trace);
    }
  }
}
