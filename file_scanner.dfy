/**
  `FileScannerService`: a walk over the directory enumerator's entries that
  keeps the regular files the filters accept, prunes the directories they
  reject, and can be cancelled at its yield points.
 */
module FileScanner {
  import opened Wrappers
  import opened Paths
  import opened ScannedFiles
  import opened Filters
  import opened DuplicateGroups
  import Sequences
  import P = ScanProgresses

  /** `ScanError` */
  datatype ScanError = Cancelled | DirectoryNotFound(url: Url) | AccessDenied(url: Url)

  /**
    The resource values the scanner asks for. A flag the system leaves `nil`
    compares unequal to `true` in the source, so it is `false` here.
   */
  datatype ResourceValues = ResourceValues(
    isSymbolicLink: bool,
    isDirectory: bool,
    isRegularFile: bool,
    fileSize: Option<nat>,
    creationDate: Option<Date>,
    contentModificationDate: Option<Date>)

  /**
    One entry as the enumerator yields it, in pre-order: its URL, its depth
    below the root (the enumerator's `level`) and its resource values, `None`
    when reading them throws.
   */
  datatype Entry = Entry(url: Url, level: nat, values: Option<ResourceValues>)

  /** What lies at the URL handed to `scanDirectory`. */
  datatype Root =
    | Missing                           // nothing exists at the path
    | NotADirectory                     // something exists, but not a directory
    | Unenumerable                      // `enumerator(at:...)` returns nil
    | Listing(entries: seq<Entry>)      // the enumerator's entries, packages not descended into

  /** A directory the filters refuse to walk: the scanner calls `skipDescendants()` on it. */
  predicate Pruned(f: FileFilters, e: Entry)
  {
    e.values.Some? && !e.values.value.isSymbolicLink && e.values.value.isDirectory && !f.ShouldTraverseDirectory(e.url)
  }

  /** A regular file, not a link nor a directory, whose URL and size the filters accept. */
  predicate Accepts(f: FileFilters, e: Entry)
  {
    && e.values.Some?
    && !e.values.value.isSymbolicLink
    && !e.values.value.isDirectory
    && e.values.value.isRegularFile
    && f.ShouldIncludeFile(e.url, e.values.value.fileSize.GetOr(0))
  }

  /**
    The two verdicts the walk needs about an entry: whether the scanner
    prunes it and whether it keeps it.
   */
  datatype Verdicts = Verdicts(pruned: Entry -> bool, accepts: Entry -> bool)

  /** The verdicts of the filters `f`. */
  function VerdictsOf(f: FileFilters): (v: Verdicts)
    ensures forall e :: v.pruned(e) == Pruned(f, e)
    ensures forall e :: v.accepts(e) == Accepts(f, e)
  {
    Verdicts(e => Pruned(f, e), e => Accepts(f, e))
  }

  /** The `ScannedFile` made from an entry; a missing size counts as 0 (an entry without values is never kept). */
  function FileOf(e: Entry, id: Uuid): (file: ScannedFile)
    ensures file.id == id && file.url == e.url
    ensures e.values.Some? ==> file.size == e.values.value.fileSize.GetOr(0) &&
                               file.creationDate == e.values.value.creationDate &&
                               file.modificationDate == e.values.value.contentModificationDate
    ensures file.partialHash == None && file.fullHash == None
  {
    match e.values
    case None => NewScannedFile(id, e.url, 0)
    case Some(v) => NewScannedFile(id, e.url, v.fileSize.GetOr(0), v.creationDate, v.contentModificationDate)
  }

  /** Entry `j` lies in the subtree of entry `i`: every entry after `i` up to `j` is deeper than `i`. */
  ghost predicate Beneath(es: seq<Entry>, i: nat, j: nat)
    requires i < j < |es|
  {
    forall k :: i < k <= j ==> es[k].level > es[i].level
  }

  /** No directory above entry `j` is pruned: the entries a walk of the whole tree reaches. */
  ghost predicate Exposed(v: Verdicts, es: seq<Entry>, j: nat)
    requires j < |es|
  {
    forall i :: 0 <= i < j && Beneath(es, i, j) ==> !v.pruned(es[i])
  }

  /** Where the enumerator resumes after `skipDescendants()` on entry `i`: the next entry no deeper than `i`. */
  function SubtreeEnd(es: seq<Entry>, i: nat): (k: nat)
    requires i < |es|
    ensures i < k <= |es|
    ensures forall j :: i < j < k ==> es[j].level > es[i].level
    ensures k < |es| ==> es[k].level <= es[i].level
  {
    SubtreeEndFrom(es, i, i + 1)
  }

  function SubtreeEndFrom(es: seq<Entry>, i: nat, j: nat): (k: nat)
    requires i < j <= |es|
    requires forall m :: i < m < j ==> es[m].level > es[i].level
    ensures j <= k <= |es|
    ensures forall m :: i < m < k ==> es[m].level > es[i].level
    ensures k < |es| ==> es[k].level <= es[i].level
    decreases |es| - j
  {
    if j == |es| || es[j].level <= es[i].level then j else SubtreeEndFrom(es, i, j + 1)
  }

  /** The position the enumerator yields after entry `i`: past its subtree when the scanner prunes it. */
  function Next(v: Verdicts, es: seq<Entry>, i: nat): (k: nat)
    requires i < |es|
    ensures i < k <= |es|
  {
    if v.pruned(es[i]) then SubtreeEnd(es, i) else i + 1
  }

  /** The positions the enumerator yields from position `i` on. */
  function Visits(v: Verdicts, es: seq<Entry>, i: nat): seq<nat>
    decreases |es| - i
  {
    if i >= |es| then [] else [i] + Visits(v, es, Next(v, es, i))
  }

  /** The positions among those of the entries the scanner keeps. */
  function Picks(v: Verdicts, es: seq<Entry>, i: nat): seq<nat>
    decreases |es| - i
  {
    if i >= |es| then [] else (if v.accepts(es[i]) then [i] else []) + Picks(v, es, Next(v, es, i))
  }

  /** The files kept from position `i` on when `n` files were kept before it. */
  function KeptFrom(v: Verdicts, es: seq<Entry>, i: nat, n: nat, newId: nat -> Uuid): seq<ScannedFile>
    decreases |es| - i
  {
    if i >= |es| then []
    else if v.accepts(es[i]) then [FileOf(es[i], newId(n))] + KeptFrom(v, es, Next(v, es, i), n + 1, newId)
    else KeptFrom(v, es, Next(v, es, i), n, newId)
  }

  /** What a scan of the whole listing keeps, the `k`-th file with identifier `newId(k)`. */
  function Kept(v: Verdicts, es: seq<Entry>, newId: nat -> Uuid): seq<ScannedFile>
  {
    KeptFrom(v, es, 0, 0, newId)
  }

  // ---------------------------------------------------------------------
  // Which entries the walk reaches

  /** The first entry is reached. */
  lemma ExposedFirst(v: Verdicts, es: seq<Entry>)
    requires |es| > 0
    ensures Exposed(v, es, 0)
  {
  }

  /** After an entry the walk reaches, it reaches the one the enumerator yields next. */
  lemma ExposedNext(v: Verdicts, es: seq<Entry>, i: nat)
    requires i < |es| && Exposed(v, es, i)
    requires Next(v, es, i) < |es|
    ensures Exposed(v, es, Next(v, es, i))
  {
    var k := Next(v, es, i);
    forall i' | 0 <= i' < k && Beneath(es, i', k) ensures !v.pruned(es[i']) {
      if i' < i {
        assert Beneath(es, i', i);
      }
    }
  }

  /** The entries inside a pruned subtree are not reached. */
  lemma InsideUnexposed(v: Verdicts, es: seq<Entry>, i: nat, m: nat)
    requires i < |es| && v.pruned(es[i])
    requires i < m < SubtreeEnd(es, i)
    ensures !Exposed(v, es, m)
  {
    assert Beneath(es, i, m);
  }

  /** The enumerator yields positions in increasing order, none before the start. */
  lemma {:induction false} VisitsOrdered(v: Verdicts, es: seq<Entry>, i: nat)
    ensures forall a :: 0 <= a < |Visits(v, es, i)| ==> i <= Visits(v, es, i)[a] < |es|
    ensures forall a, b :: 0 <= a < b < |Visits(v, es, i)| ==> Visits(v, es, i)[a] < Visits(v, es, i)[b]
    decreases |es| - i
  {
    if i < |es| {
      VisitsOrdered(v, es, Next(v, es, i));
    }
  }

  /** The same for the kept positions. */
  lemma {:induction false} PicksOrdered(v: Verdicts, es: seq<Entry>, i: nat)
    ensures forall a :: 0 <= a < |Picks(v, es, i)| ==> i <= Picks(v, es, i)[a] < |es|
    ensures forall a, b :: 0 <= a < b < |Picks(v, es, i)| ==> Picks(v, es, i)[a] < Picks(v, es, i)[b]
    decreases |es| - i
  {
    if i < |es| {
      PicksOrdered(v, es, Next(v, es, i));
    }
  }

  /** From a reached position, the enumerator yields exactly the reached entries after it. */
  lemma {:induction false} VisitsExposed(v: Verdicts, es: seq<Entry>, i: nat, j: nat)
    requires i <= j < |es| && Exposed(v, es, i)
    ensures j in Visits(v, es, i) <==> Exposed(v, es, j)
    decreases |es| - i
  {
    var n := Next(v, es, i);
    assert Visits(v, es, i) == [i] + Visits(v, es, n);
    if j > i {
      VisitsOrdered(v, es, n);
      if j < n {
        InsideUnexposed(v, es, i, j);
      } else {
        ExposedNext(v, es, i);
        VisitsExposed(v, es, n, j);
      }
    }
  }

  /** The kept positions are the yielded positions of entries the filters accept. */
  lemma {:induction false} PicksAccepted(v: Verdicts, es: seq<Entry>, i: nat, j: nat)
    requires j < |es|
    ensures j in Picks(v, es, i) <==> j in Visits(v, es, i) && v.accepts(es[j])
    decreases |es| - i
  {
    if i < |es| {
      PicksAccepted(v, es, Next(v, es, i), j);
    }
  }

  /** One step of the walk: the file kept at position `i`, if any, then those kept after it. */
  lemma KeptFromStep(v: Verdicts, es: seq<Entry>, i: nat, n: nat, newId: nat -> Uuid)
    requires i < |es|
    ensures Visits(v, es, i) == [i] + Visits(v, es, Next(v, es, i))
    ensures v.accepts(es[i]) ==>
              KeptFrom(v, es, i, n, newId) == [FileOf(es[i], newId(n))] + KeptFrom(v, es, Next(v, es, i), n + 1, newId)
    ensures !v.accepts(es[i]) ==> KeptFrom(v, es, i, n, newId) == KeptFrom(v, es, Next(v, es, i), n, newId)
  {
  }

  /** One kept file per kept position. */
  lemma {:induction false} KeptFromLength(v: Verdicts, es: seq<Entry>, i: nat, n: nat, newId: nat -> Uuid)
    ensures |KeptFrom(v, es, i, n, newId)| == |Picks(v, es, i)|
    decreases |es| - i
  {
    if i < |es| {
      var m := Next(v, es, i);
      KeptFromLength(v, es, m, if v.accepts(es[i]) then n + 1 else n, newId);
    }
  }

  /** The `k`-th file kept from position `i` on is made from the `k`-th kept position, numbered on from `n`. */
  lemma {:induction false} KeptFromAt(v: Verdicts, es: seq<Entry>, i: nat, n: nat, newId: nat -> Uuid, k: nat)
    requires k < |Picks(v, es, i)|
    ensures k < |KeptFrom(v, es, i, n, newId)|
    ensures Picks(v, es, i)[k] < |es| && KeptFrom(v, es, i, n, newId)[k] == FileOf(es[Picks(v, es, i)[k]], newId(n + k))
    decreases |es| - i
  {
    KeptFromLength(v, es, i, n, newId);
    var m := Next(v, es, i);
    if v.accepts(es[i]) {
      assert Picks(v, es, i) == [i] + Picks(v, es, m);
      assert KeptFrom(v, es, i, n, newId) == [FileOf(es[i], newId(n))] + KeptFrom(v, es, m, n + 1, newId);
      if k > 0 {
        KeptFromAt(v, es, m, n + 1, newId, k - 1);
      }
    } else {
      KeptFromAt(v, es, m, n, newId, k);
    }
  }

  // ---------------------------------------------------------------------
  // What a scan keeps

  /** An entry is yielded iff no directory above it is pruned. */
  lemma VisitedIffExposed(v: Verdicts, es: seq<Entry>, j: nat)
    requires j < |es|
    ensures j in Visits(v, es, 0) <==> Exposed(v, es, j)
  {
    ExposedFirst(v, es);
    VisitsExposed(v, es, 0, j);
  }

  /** An entry is kept iff no directory above it is pruned and it is a regular file the filters accept. */
  lemma KeptIffExposedAccepted(f: FileFilters, es: seq<Entry>, j: nat)
    requires j < |es|
    ensures j in Picks(VerdictsOf(f), es, 0) <==> Exposed(VerdictsOf(f), es, j) && Accepts(f, es[j])
  {
    var v := VerdictsOf(f);
    VisitedIffExposed(v, es, j);
    PicksAccepted(v, es, 0, j);
  }

  /**
    The `k`-th kept file is made from the `k`-th kept entry with identifier
    `newId(k)`, and the kept entries follow enumeration order.
   */
  lemma KeptInOrder(v: Verdicts, es: seq<Entry>, newId: nat -> Uuid)
    ensures |Kept(v, es, newId)| == |Picks(v, es, 0)|
    ensures forall k :: 0 <= k < |Picks(v, es, 0)| ==>
              Picks(v, es, 0)[k] < |es| && Kept(v, es, newId)[k] == FileOf(es[Picks(v, es, 0)[k]], newId(k))
    ensures forall a, b :: 0 <= a < b < |Picks(v, es, 0)| ==> Picks(v, es, 0)[a] < Picks(v, es, 0)[b]
  {
    KeptFromLength(v, es, 0, 0, newId);
    forall k | 0 <= k < |Picks(v, es, 0)|
      ensures Picks(v, es, 0)[k] < |es| && Kept(v, es, newId)[k] == FileOf(es[Picks(v, es, 0)[k]], newId(k))
    {
      KeptFromAt(v, es, 0, 0, newId, k);
    }
    PicksOrdered(v, es, 0);
  }

  /** Every kept file passes the filters with its recorded size, carries no hash yet, and comes from a regular file. */
  lemma KeptPassFilters(f: FileFilters, es: seq<Entry>, newId: nat -> Uuid, file: ScannedFile)
    requires file in Kept(VerdictsOf(f), es, newId)
    ensures f.ShouldIncludeFile(file.url, file.size) && file.size >= f.minimumFileSize
    ensures file.partialHash == None && file.fullHash == None
    ensures exists e :: e in es && e.url == file.url && e.values.Some? && e.values.value.isRegularFile &&
                        !e.values.value.isSymbolicLink && !e.values.value.isDirectory
  {
    var v := VerdictsOf(f);
    KeptInOrder(v, es, newId);
    var k :| 0 <= k < |Kept(v, es, newId)| && Kept(v, es, newId)[k] == file;
    var j := Picks(v, es, 0)[k];
    PicksAccepted(v, es, 0, j);
    assert es[j] in es;
  }

  /** Nothing beneath a pruned directory is yielded, let alone kept. */
  lemma NothingBeneathPruned(f: FileFilters, es: seq<Entry>, i: nat, j: nat)
    requires i < j < |es| && Pruned(f, es[i]) && Beneath(es, i, j)
    ensures j !in Visits(VerdictsOf(f), es, 0) && j !in Picks(VerdictsOf(f), es, 0)
  {
    var v := VerdictsOf(f);
    VisitedIffExposed(v, es, j);
    PicksAccepted(v, es, 0, j);
  }

  // ---------------------------------------------------------------------
  // Progress

  /** The first event: enumeration starts at the root. */
  function StartEvent(url: Url, now: Date): P.ScanProgress
  {
    P.ScanProgress(phase := P.Enumerating, totalFiles := 0, processedFiles := 0, currentFile := Some(PathString(url)),
                   startTime := Some(now))
  }

  /** The event after a hundredth kept file: the count, that file's path, and the bytes kept so far. */
  function Milestone(files: seq<ScannedFile>, now: Date): P.ScanProgress
    requires |files| > 0
  {
    P.ScanProgress(phase := P.Enumerating, totalFiles := |files|, processedFiles := |files|,
                   currentFile := Some(PathString(files[|files| - 1].url)), bytesProcessed := SumSizes(files),
                   startTime := Some(now))
  }

  /** The events emitted while `files` were kept. */
  function Milestones(files: seq<ScannedFile>, now: Date): seq<P.ScanProgress>
  {
    if |files| == 0 then []
    else Milestones(files[..|files| - 1], now) + (if |files| % 100 == 0 then [Milestone(files, now)] else [])
  }

  /** The last event: every kept file processed, the bytes processed and the total both the sum of their sizes. */
  function FinishEvent(files: seq<ScannedFile>, now: Date): P.ScanProgress
  {
    P.ScanProgress(phase := P.Completed, totalFiles := |files|, processedFiles := |files|,
                   bytesProcessed := SumSizes(files), totalBytes := SumSizes(files), startTime := Some(now))
  }

  /** Keeping one more file adds a milestone exactly when the count reaches a multiple of a hundred. */
  lemma MilestonesSnoc(files: seq<ScannedFile>, file: ScannedFile, now: Date)
    ensures Milestones(files + [file], now) ==
            Milestones(files, now) + (if (|files| + 1) % 100 == 0 then [Milestone(files + [file], now)] else [])
  {
    assert (files + [file])[..|files|] == files;
  }

  /** One milestone per hundred kept files, the `c`-th after file number `100 * (c + 1)`. */
  lemma {:induction false} MilestonesAt(files: seq<ScannedFile>, now: Date)
    ensures |Milestones(files, now)| == |files| / 100
    ensures forall c :: 0 <= c < |Milestones(files, now)| ==> Milestones(files, now)[c] == Milestone(files[..100 * (c + 1)], now)
    decreases |files|
  {
    if |files| > 0 {
      var front := files[..|files| - 1];
      MilestonesAt(front, now);
      forall c | 0 <= c < |Milestones(front, now)|
        ensures Milestones(files, now)[c] == Milestone(files[..100 * (c + 1)], now)
      {
        assert front[..100 * (c + 1)] == files[..100 * (c + 1)];
      }
      if |files| % 100 == 0 {
        assert files[..100 * (|files| / 100)] == files;
      }
    }
  }

  /**
    The values of `batchCount` at which the loop yields during its first `n`
    visits: before each visit it yields when the count of earlier visits is a
    multiple of 50.
   */
  function YieldsIn(n: nat): seq<nat>
  {
    if n == 0 then [] else YieldsIn(n - 1) + (if (n - 1) % 50 == 0 then [n - 1] else [])
  }

  /** `n` visits yield `ceil(n / 50)` times, the `k`-th time before the visit that follows `50 * k` earlier ones. */
  lemma {:induction false} YieldsInAt(n: nat)
    ensures |YieldsIn(n)| == (n + 49) / 50
    ensures forall k :: 0 <= k < |YieldsIn(n)| ==> YieldsIn(n)[k] == 50 * k
    decreases n
  {
    if n > 0 {
      YieldsInAt(n - 1);
      if (n - 1) % 50 == 0 {
        assert (n + 49) / 50 == (n + 48) / 50 + 1;
        assert YieldsIn(n)[(n + 48) / 50] == n - 1;
      } else {
        assert (n + 49) / 50 == (n + 48) / 50;
      }
    }
  }

  /**
    The loop's test `batchCount % 50 == 0` at count `b` makes that yield the
    one numbered `k` exactly when `b` is the `k`-th yield of the first `b + 1`
    visits, that is, when `b == 50 * k`.
   */
  lemma YieldNumber(b: nat, k: nat)
    ensures (b % 50 == 0 && k == b / 50) <==> (k < |YieldsIn(b + 1)| && YieldsIn(b + 1)[k] == b)
    ensures (b % 50 == 0 && k == b / 50) <==> b == 50 * k
  {
    YieldsInAt(b + 1);
    if b == 50 * k {
      assert b / 50 == k && b % 50 == 0;
      assert k < (b + 50) / 50;
    }
    if b % 50 == 0 && k == b / 50 {
      assert b == 50 * (b / 50) + b % 50;
    }
    if k < |YieldsIn(b + 1)| && YieldsIn(b + 1)[k] == b {
      assert b == 50 * k;
    }
  }

  /**
    What `scanDirectory` returns or throws for the root `url` holding `root`,
    when another task's `cancelScan()` runs at the yield numbered `cancelAt`.
   */
  function ScanOutcome(f: FileFilters, url: Url, root: Root, newId: nat -> Uuid, cancelAt: Option<nat>): Result<seq<ScannedFile>, ScanError>
  {
    match root
    case Missing => Failure(DirectoryNotFound(url))
    case NotADirectory => Failure(DirectoryNotFound(url))
    case Unenumerable => Failure(AccessDenied(url))
    case Listing(es) =>
      var v := VerdictsOf(f);
      if cancelAt.Some? && 50 * cancelAt.value + 1 < |Visits(v, es, 0)| then Failure(Cancelled) else Success(Kept(v, es, newId))
  }

  /** `FileScannerService` */
  class FileScannerService {
    const filters: FileFilters
    var isCancelled: bool

    /** `init(filters:)`; the source's default is `FileFilters.default`. */
    constructor(filters: FileFilters)
      ensures this.filters == filters && !isCancelled
    {
      this.filters := filters;
      isCancelled := false;
    }

    /** `cancelScan()` */
    method CancelScan()
      modifies this
      ensures isCancelled
    {
      isCancelled := true;
    }

    /**
      `if batchCount % 50 == 0 { await Task.yield() }`: the one point where
      another task's `cancelScan()` can run, here at the yield numbered `cancelAt`.
     */
    method Yield(batchCount: nat, cancelAt: Option<nat>)
      modifies this
      ensures isCancelled <==> old(isCancelled) || (cancelAt.Some? && batchCount == 50 * cancelAt.value)
    {
      if cancelAt.Some? {
        YieldNumber(batchCount, cancelAt.value);
      }
      if batchCount % 50 == 0 && cancelAt == Some(batchCount / 50) {
        CancelScan();
      }
    }

    /**
      The loop body's look at one entry's resource values: a link is passed
      over, a directory the filters refuse is pruned (`skipDescendants()`),
      and a regular file is kept when the filters accept its URL and size
      (a missing size counts as 0).
     */
    method Inspect(es: seq<Entry>, i: nat) returns (next: nat, kept: bool)
      requires i < |es|
      ensures next == Next(VerdictsOf(filters), es, i)
      ensures kept == Accepts(filters, es[i])
    {
      var e := es[i];
      next := i + 1;
      kept := false;
      if e.values.Some? {
        var values := e.values.value;
        if values.isSymbolicLink {
        } else if values.isDirectory {
          if !filters.ShouldTraverseDirectory(e.url) {
            next := SubtreeEnd(es, i);
          }
        } else if values.isRegularFile {
          var fileSize := values.fileSize.GetOr(0);
          if filters.ShouldIncludeFile(e.url, fileSize) {
            kept := true;
          }
        }
      }
    }

    /**
      `scanDirectory(at:progress:)`. The progress callback's calls become
      `progress`, the clock's reading is `now`, `newId(k)` is the identifier
      the `k`-th kept file receives, and another task's `cancelScan()` runs
      at the `Task.yield()` numbered `cancelAt`, if at all (the actor runs
      nothing else while the scan is between yields).
     */
    method ScanDirectory(url: Url, root: Root, newId: nat -> Uuid, cancelAt: Option<nat>, now: Date)
      returns (r: Result<seq<ScannedFile>, ScanError>, progress: seq<P.ScanProgress>)
      modifies this
      ensures root.Missing? || root.NotADirectory? ==> r == Failure(DirectoryNotFound(url)) && progress == [] && !isCancelled
      ensures root.Unenumerable? ==> r == Failure(AccessDenied(url)) && progress == [StartEvent(url, now)] && !isCancelled
      ensures root.Listing? ==>
                (r.Failure? <==> cancelAt.Some? && 50 * cancelAt.value + 1 < |Visits(VerdictsOf(filters), root.entries, 0)|)
      ensures root.Listing? && r.Failure? ==>
                r.error == Cancelled && isCancelled &&
                exists n :: 0 <= n <= |Kept(VerdictsOf(filters), root.entries, newId)| &&
                  progress == [StartEvent(url, now)] + Milestones(Kept(VerdictsOf(filters), root.entries, newId)[..n], now)
      ensures root.Listing? && r.Success? ==>
                r.value == Kept(VerdictsOf(filters), root.entries, newId) &&
                (isCancelled <==> cancelAt.Some? && 50 * cancelAt.value < |Visits(VerdictsOf(filters), root.entries, 0)|) &&
                progress == [StartEvent(url, now)] + Milestones(r.value, now) + [FinishEvent(r.value, now)]
    {
      isCancelled := false;
      if root.Missing? || root.NotADirectory? {
        return Failure(DirectoryNotFound(url)), [];
      }
      if root.Unenumerable? {
        return Failure(AccessDenied(url)), [StartEvent(url, now)];
      }
      r, progress := Enumerate(url, root.entries, newId, cancelAt, now);
    }

    /** The enumeration loop of `scanDirectory`, entered uncancelled once the enumerator exists. */
    method Enumerate(url: Url, es: seq<Entry>, newId: nat -> Uuid, cancelAt: Option<nat>, now: Date)
      returns (r: Result<seq<ScannedFile>, ScanError>, progress: seq<P.ScanProgress>)
      requires !isCancelled
      modifies this
      ensures r.Failure? <==> cancelAt.Some? && 50 * cancelAt.value + 1 < |Visits(VerdictsOf(filters), es, 0)|
      ensures r.Failure? ==>
                r.error == Cancelled && isCancelled &&
                exists n :: 0 <= n <= |Kept(VerdictsOf(filters), es, newId)| &&
                  progress == [StartEvent(url, now)] + Milestones(Kept(VerdictsOf(filters), es, newId)[..n], now)
      ensures r.Success? ==>
                r.value == Kept(VerdictsOf(filters), es, newId) &&
                (isCancelled <==> cancelAt.Some? && 50 * cancelAt.value < |Visits(VerdictsOf(filters), es, 0)|) &&
                progress == [StartEvent(url, now)] + Milestones(r.value, now) + [FinishEvent(r.value, now)]
    {
      ghost var v := VerdictsOf(filters);
      var scannedFiles: seq<ScannedFile> := [];
      var processedCount := 0;
      progress := [StartEvent(url, now)];
      var batchCount := 0;
      var i := 0;
      while i < |es|
        invariant 0 <= i <= |es|
        invariant batchCount + |Visits(v, es, i)| == |Visits(v, es, 0)|
        invariant scannedFiles + KeptFrom(v, es, i, |scannedFiles|, newId) == Kept(v, es, newId)
        invariant processedCount == |scannedFiles|
        invariant progress == [StartEvent(url, now)] + Milestones(scannedFiles, now)
        invariant isCancelled <==> cancelAt.Some? && 50 * cancelAt.value < batchCount
        invariant isCancelled ==> batchCount == 50 * cancelAt.value + 1
        decreases |es| - i
      {
        if isCancelled {
          assert |Visits(v, es, i)| > 0;
          assert Kept(v, es, newId)[..|scannedFiles|] == scannedFiles;
          return Failure(Cancelled), progress;
        }
        Yield(batchCount, cancelAt);
        batchCount := batchCount + 1;
        var next, kept := Inspect(es, i);
        ghost var before := scannedFiles;
        ghost var added := if kept then [FileOf(es[i], newId(|before|))] else [];
        if kept {
          scannedFiles, processedCount, progress := Record(scannedFiles, processedCount, progress, FileOf(es[i], newId(|scannedFiles|)), url, now);
        }
        KeptFromStep(v, es, i, |before|, newId);
        Sequences.ConcatAssoc(before, added, KeptFrom(v, es, next, |scannedFiles|, newId));
        i := next;
      }
      progress := progress + [FinishEvent(scannedFiles, now)];
      r := Success(scannedFiles);
    }

    /**
      A kept file is appended and counted, and every hundredth one is
      reported through the progress callback.
     */
    static method Record(files: seq<ScannedFile>, count: nat, progress: seq<P.ScanProgress>, file: ScannedFile, url: Url, now: Date)
      returns (files': seq<ScannedFile>, count': nat, progress': seq<P.ScanProgress>)
      requires count == |files| && progress == [StartEvent(url, now)] + Milestones(files, now)
      ensures files' == files + [file] && count' == |files'|
      ensures progress' == [StartEvent(url, now)] + Milestones(files', now)
    {
      MilestonesSnoc(files, file, now);
      files' := files + [file];
      count' := count + 1;
      progress' := progress;
      if count' % 100 == 0 {
        progress' := progress' + [Milestone(files', now)];
      }
    }
  }
}
