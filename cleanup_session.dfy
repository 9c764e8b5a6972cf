/** One completed cleanup and the running totals over many. */
module CleanupSessions {
  import opened Paths
  import opened ScannedFiles
  import opened Sequences

  datatype CleanupSession = CleanupSession(
    id: Uuid,
    date: Date,
    scannedDirectories: seq<string>,
    filesDeleted: int,
    bytesRecovered: int,
    duplicateGroupsCleaned: int,
    errors: seq<string> := [])
  {
    /** `scannedDirectory`: the directories joined with ", ". */
    function ScannedDirectory(): string
    {
      Join(scannedDirectories, ", ")
    }

    /** `wasSuccessful` */
    predicate WasSuccessful() { |errors| == 0 && filesDeleted > 0 }
  }

  /** The single-directory initializer `CleanupSession(scannedDirectory:…)`. */
  function SingleDirectorySession(id: Uuid, date: Date, scannedDirectory: string, filesDeleted: int,
                                  bytesRecovered: int, duplicateGroupsCleaned: int,
                                  errors: seq<string> := []): (s: CleanupSession)
    ensures s.scannedDirectories == [scannedDirectory]
    ensures s.ScannedDirectory() == scannedDirectory
    ensures s.id == id && s.date == date && s.filesDeleted == filesDeleted && s.bytesRecovered == bytesRecovered
    ensures s.duplicateGroupsCleaned == duplicateGroupsCleaned && s.errors == errors
  {
    CleanupSession(id, date, [scannedDirectory], filesDeleted, bytesRecovered, duplicateGroupsCleaned, errors)
  }

  /** `scannedDirectory` of several directories puts ", " between consecutive ones. */
  lemma ScannedDirectoryAppend(s: CleanupSession, dir: string)
    requires |s.scannedDirectories| > 0
    ensures s.(scannedDirectories := s.scannedDirectories + [dir]).ScannedDirectory() == s.ScannedDirectory() + ", " + dir
  {
    JoinAppend(s.scannedDirectories, dir, ", ");
  }

  /** `SavingsStats`; a `struct`, so its `mutating func add` returns the updated value. */
  datatype SavingsStats = SavingsStats(totalFilesDeleted: int := 0, totalBytesRecovered: int := 0,
                                       totalSessionsCompleted: int := 0)
  {
    /** `add(_:)`: `stats.add(s)` is `stats := stats.Add(s)`. */
    function Add(session: CleanupSession): (r: SavingsStats)
      ensures r.totalFilesDeleted - totalFilesDeleted == session.filesDeleted
      ensures r.totalBytesRecovered - totalBytesRecovered == session.bytesRecovered
      ensures r.totalSessionsCompleted == totalSessionsCompleted + 1
    {
      SavingsStats(totalFilesDeleted + session.filesDeleted,
                   totalBytesRecovered + session.bytesRecovered,
                   totalSessionsCompleted + 1)
    }
  }

  /** `SavingsStats.empty` */
  function EmptyStats(): (r: SavingsStats)
    ensures r.totalFilesDeleted == 0 && r.totalBytesRecovered == 0 && r.totalSessionsCompleted == 0
  {
    SavingsStats()
  }

  /** `for s in sessions { stats.add(s) }`, as a left fold. */
  function AddAll(stats: SavingsStats, sessions: seq<CleanupSession>): SavingsStats
    decreases |sessions|
  {
    if |sessions| == 0 then stats else AddAll(stats.Add(sessions[0]), sessions[1..])
  }

  function SumFilesDeleted(ss: seq<CleanupSession>): int
  {
    if |ss| == 0 then 0 else ss[0].filesDeleted + SumFilesDeleted(ss[1..])
  }

  function SumBytesRecovered(ss: seq<CleanupSession>): int
  {
    if |ss| == 0 then 0 else ss[0].bytesRecovered + SumBytesRecovered(ss[1..])
  }

  /** Folding `add` over sessions adds their sums and their number to the starting totals. */
  lemma {:induction false} AddAllSums(stats: SavingsStats, ss: seq<CleanupSession>)
    ensures AddAll(stats, ss) == SavingsStats(stats.totalFilesDeleted + SumFilesDeleted(ss),
                                              stats.totalBytesRecovered + SumBytesRecovered(ss),
                                              stats.totalSessionsCompleted + |ss|)
    decreases |ss|
  {
    if |ss| > 0 {
      AddAllSums(stats.Add(ss[0]), ss[1..]);
    }
  }

  lemma {:induction false} SumsAppend(a: seq<CleanupSession>, b: seq<CleanupSession>)
    ensures SumFilesDeleted(a + b) == SumFilesDeleted(a) + SumFilesDeleted(b)
    ensures SumBytesRecovered(a + b) == SumBytesRecovered(a) + SumBytesRecovered(b)
  {
    if |a| > 0 {
      assert (a + b)[1..] == a[1..] + b;
      SumsAppend(a[1..], b);
    } else {
      assert a + b == b;
    }
  }

  /** Taking one session out of a list takes its figures out of the sums. */
  lemma SumsRemove(b: seq<CleanupSession>, k: nat)
    requires k < |b|
    ensures SumFilesDeleted(b) == b[k].filesDeleted + SumFilesDeleted(b[..k] + b[k + 1..])
    ensures SumBytesRecovered(b) == b[k].bytesRecovered + SumBytesRecovered(b[..k] + b[k + 1..])
  {
    Decompose(b, k);
    SumsAppend(b[..k] + [b[k]], b[k + 1..]);
    SumsAppend(b[..k], [b[k]]);
    SumsAppend(b[..k], b[k + 1..]);
  }

  /** The sums do not depend on the order of the sessions. */
  lemma {:induction false} SumsPermutation(a: seq<CleanupSession>, b: seq<CleanupSession>)
    requires multiset(a) == multiset(b)
    ensures SumFilesDeleted(a) == SumFilesDeleted(b) && SumBytesRecovered(a) == SumBytesRecovered(b)
    decreases |a|
  {
    if |a| > 0 {
      assert a[0] in multiset(b);
      var k :| 0 <= k < |b| && b[k] == a[0];
      var rest := b[..k] + b[k + 1..];
      MultisetRemoveHead(a, b, k);
      SumsPermutation(a[1..], rest);
      SumsRemove(b, k);
    } else {
      assert |b| == |multiset(b)| == |multiset(a)| == 0;
    }
  }

  /**
    Folding `add` from `.empty` yields the sums and the count of the sessions,
    whatever order they come in.
   */
  lemma StatsOfSessions(a: seq<CleanupSession>, b: seq<CleanupSession>)
    requires multiset(a) == multiset(b)
    ensures AddAll(EmptyStats(), a) == SavingsStats(SumFilesDeleted(a), SumBytesRecovered(a), |a|)
    ensures AddAll(EmptyStats(), a) == AddAll(EmptyStats(), b)
  {
    AddAllSums(EmptyStats(), a);
    AddAllSums(EmptyStats(), b);
    SumsPermutation(a, b);
    assert |a| == |multiset(a)| == |multiset(b)| == |b|;
  }
}
