/**
  `HistoryManager`: the persistent ledger of cleanup sessions, newest first,
  with running totals, read through an in-memory cache.
 */
module History {
  import opened Wrappers
  import opened ScannedFiles
  import opened Sequences
  import opened CleanupSessions

  /** `HistoryFile`: the totals and the sessions, newest first. */
  datatype HistoryFile = HistoryFile(
    totalSpaceSaved: int,
    totalFilesDeleted: int,
    totalSessions: int,
    sessions: seq<CleanupSession>)

  /** `HistoryFile.empty` */
  function EmptyHistory(): (h: HistoryFile)
    ensures h.sessions == [] && h.totalSpaceSaved == 0 && h.totalFilesDeleted == 0 && h.totalSessions == 0
  {
    HistoryFile(0, 0, 0, [])
  }

  /**
    What the history file's location holds: no file, a file that cannot be
    read or decoded, or a decoded history.
   */
  datatype Disk = NoFile | Unreadable | Holds(file: HistoryFile)

  datatype HistoryError = ReadFailed | WriteFailed

  /** A read of the file itself: empty when it does not exist. */
  function Read(disk: Disk): Result<HistoryFile, HistoryError>
  {
    match disk
    case NoFile => Success(EmptyHistory())
    case Unreadable => Failure(ReadFailed)
    case Holds(h) => Success(h)
  }

  /** `loadHistoryFile()`: the cached history when there is one, else a read of the file. */
  function Load(cache: Option<HistoryFile>, disk: Disk): Result<HistoryFile, HistoryError>
  {
    if cache.Some? then Success(cache.value) else Read(disk)
  }

  /** The cache after `loadHistoryFile()`: a filled one is kept, a decoded file is cached, nothing else is. */
  function LoadedCache(cache: Option<HistoryFile>, disk: Disk): (c: Option<HistoryFile>)
    ensures cache.Some? ==> c == cache
    ensures cache.None? ==> (c.Some? <==> disk.Holds?) && (disk.Holds? ==> c == Some(disk.file))
    ensures c.Some? ==> Load(cache, disk) == Success(c.value)
  {
    if cache.Some? then cache else if disk.Holds? then Some(disk.file) else None
  }

  /** A cache that holds what the file holds is invisible: loading is reading the file. */
  lemma LoadIsRead(cache: Option<HistoryFile>, disk: Disk)
    requires cache.Some? ==> disk == Holds(cache.value)
    ensures Load(cache, disk) == Read(disk)
  {
  }

  /** `loadStats()`'s view of a history. */
  function StatsOf(h: HistoryFile): (r: SavingsStats)
    ensures r.totalFilesDeleted == h.totalFilesDeleted && r.totalBytesRecovered == h.totalSpaceSaved
    ensures r.totalSessionsCompleted == h.totalSessions
  {
    SavingsStats(h.totalFilesDeleted, h.totalSpaceSaved, h.totalSessions)
  }

  // ---------------------------------------------------------------------
  // The ledger

  /** The totals are the sums over the sessions, and their number. */
  predicate Consistent(h: HistoryFile)
  {
    && h.totalFilesDeleted == SumFilesDeleted(h.sessions)
    && h.totalSpaceSaved == SumBytesRecovered(h.sessions)
    && h.totalSessions == |h.sessions|
  }

  /** No session records a negative count of files or bytes. */
  predicate NonNegative(ss: seq<CleanupSession>)
  {
    forall k :: 0 <= k < |ss| ==> ss[k].filesDeleted >= 0 && ss[k].bytesRecovered >= 0
  }

  /** `saveSession`'s change: the session in front, its figures added to the totals. */
  function Saved(h: HistoryFile, s: CleanupSession): HistoryFile
  {
    HistoryFile(h.totalSpaceSaved + s.bytesRecovered, h.totalFilesDeleted + s.filesDeleted,
                h.totalSessions + 1, [s] + h.sessions)
  }

  /** `firstIndex(where: { $0.id == id })` */
  function FirstIndexOf(ss: seq<CleanupSession>, id: Uuid): (r: Option<nat>)
    ensures r.Some? ==> r.value < |ss| && ss[r.value].id == id && forall k :: 0 <= k < r.value ==> ss[k].id != id
    ensures r.None? ==> forall k :: 0 <= k < |ss| ==> ss[k].id != id
  {
    if |ss| == 0 then None
    else if ss[0].id == id then Some(0)
    else match FirstIndexOf(ss[1..], id)
      case None => None
      case Some(k) => Some(k + 1)
  }

  /**
    `deleteSession`'s change: the first session with that id taken out, its
    figures subtracted and each total clamped at zero; no change without one.
   */
  function Deleted(h: HistoryFile, id: Uuid): HistoryFile
  {
    match FirstIndexOf(h.sessions, id)
    case None => h
    case Some(k) =>
      var removed := h.sessions[k];
      HistoryFile(Clamp(h.totalSpaceSaved - removed.bytesRecovered), Clamp(h.totalFilesDeleted - removed.filesDeleted),
                  Clamp(h.totalSessions - 1), h.sessions[..k] + h.sessions[k + 1..])
  }

  /** `max(0, x)` */
  function Clamp(x: int): (r: int)
    ensures r >= 0 && r >= x && (x >= 0 ==> r == x)
  {
    if x < 0 then 0 else x
  }

  /** Saving puts the session first, keeps the older ones in order after it, and keeps the ledger consistent. */
  lemma SaveKeepsLedger(h: HistoryFile, s: CleanupSession)
    requires Consistent(h)
    ensures Saved(h, s).sessions[0] == s && Saved(h, s).sessions[1..] == h.sessions
    ensures Consistent(Saved(h, s))
    ensures NonNegative(h.sessions) && s.filesDeleted >= 0 && s.bytesRecovered >= 0 ==> NonNegative(Saved(h, s).sessions)
  {
    assert ([s] + h.sessions)[1..] == h.sessions;
  }

  /** With no session of that id, deleting changes nothing. */
  lemma DeleteUnknownChangesNothing(h: HistoryFile, id: Uuid)
    requires forall k :: 0 <= k < |h.sessions| ==> h.sessions[k].id != id
    ensures Deleted(h, id) == h
  {
    FirstIndexUnique(h.sessions, id, |h.sessions|);
  }

  /**
    Deleting an id that is present takes out exactly its first session: the
    ones before it stay (none of them has that id), the ones after move up
    by one, and every total is at least zero.
   */
  lemma DeleteRemovesFirstMatch(h: HistoryFile, id: Uuid, k: nat)
    requires k < |h.sessions| && h.sessions[k].id == id
    requires forall j :: 0 <= j < k ==> h.sessions[j].id != id
    ensures |Deleted(h, id).sessions| == |h.sessions| - 1
    ensures Deleted(h, id).sessions[..k] == h.sessions[..k]
    ensures Deleted(h, id).sessions[k..] == h.sessions[k + 1..]
    ensures multiset(Deleted(h, id).sessions) + multiset{h.sessions[k]} == multiset(h.sessions)
    ensures Deleted(h, id).totalFilesDeleted >= 0 && Deleted(h, id).totalSpaceSaved >= 0 && Deleted(h, id).totalSessions >= 0
  {
    FirstIndexUnique(h.sessions, id, k);
    var rest := h.sessions[..k] + h.sessions[k + 1..];
    assert rest[..k] == h.sessions[..k];
    assert rest[k..] == h.sessions[k + 1..];
    MultisetRemoveAt(h.sessions, k);
  }

  /** Sums over sessions with no negative figures are not negative. */
  lemma {:induction false} SumsNonNegative(ss: seq<CleanupSession>)
    requires NonNegative(ss)
    ensures SumFilesDeleted(ss) >= 0 && SumBytesRecovered(ss) >= 0
    decreases |ss|
  {
    if |ss| > 0 {
      assert NonNegative(ss[1..]) by {
        forall k | 0 <= k < |ss[1..]| ensures ss[1..][k].filesDeleted >= 0 && ss[1..][k].bytesRecovered >= 0 {
          assert ss[1..][k] == ss[k + 1];
        }
      }
      SumsNonNegative(ss[1..]);
    }
  }

  /**
    When no session records negative figures, deleting keeps the ledger
    consistent: the clamps never bite.
   */
  lemma DeleteKeepsLedger(h: HistoryFile, id: Uuid)
    requires Consistent(h) && NonNegative(h.sessions)
    ensures Consistent(Deleted(h, id)) && NonNegative(Deleted(h, id).sessions)
  {
    match FirstIndexOf(h.sessions, id)
    case None =>
    case Some(k) =>
      var rest := h.sessions[..k] + h.sessions[k + 1..];
      SumsRemove(h.sessions, k);
      assert NonNegative(rest) by {
        forall j | 0 <= j < |rest| ensures rest[j].filesDeleted >= 0 && rest[j].bytesRecovered >= 0 {
          if j < k {
            assert rest[j] == h.sessions[j];
          } else {
            assert rest[j] == h.sessions[j + 1];
          }
        }
      }
      SumsNonNegative(rest);
  }

  /** A sequence of calls on the ledger. */
  datatype Op = Save(session: CleanupSession) | Delete(id: Uuid) | Clear

  /** The history after the calls that succeed, in order. */
  function Apply(h: HistoryFile, ops: seq<Op>): HistoryFile
    decreases |ops|
  {
    if |ops| == 0 then h
    else
      var next := match ops[0]
        case Save(s) => Saved(h, s)
        case Delete(id) => Deleted(h, id)
        case Clear => EmptyHistory();
      Apply(next, ops[1..])
  }

  /** Every session saved records no negative figures. */
  predicate SavesNonNegative(ops: seq<Op>)
  {
    forall k :: 0 <= k < |ops| && ops[k].Save? ==> ops[k].session.filesDeleted >= 0 && ops[k].session.bytesRecovered >= 0
  }

  /**
    Whatever mix of saves, deletes and clears runs on a consistent ledger,
    the totals stay the sums over the sessions and their number, as long as
    no saved session has negative figures.
   */
  lemma {:induction false} LedgerStaysConsistent(h: HistoryFile, ops: seq<Op>)
    requires Consistent(h) && NonNegative(h.sessions) && SavesNonNegative(ops)
    ensures Consistent(Apply(h, ops)) && NonNegative(Apply(h, ops).sessions)
    decreases |ops|
  {
    if |ops| > 0 {
      var next := match ops[0]
        case Save(s) => Saved(h, s)
        case Delete(id) => Deleted(h, id)
        case Clear => EmptyHistory();
      match ops[0] {
        case Save(s) => SaveKeepsLedger(h, s);
        case Delete(id) => DeleteKeepsLedger(h, id);
        case Clear =>
      }
      assert SavesNonNegative(ops[1..]) by {
        forall k | 0 <= k < |ops[1..]| && ops[1..][k].Save?
          ensures ops[1..][k].session.filesDeleted >= 0 && ops[1..][k].session.bytesRecovered >= 0
        {
          assert ops[1..][k] == ops[k + 1];
        }
      }
      LedgerStaysConsistent(next, ops[1..]);
    }
  }

  /** In particular from the empty history a first run starts with. */
  lemma LedgerFromEmpty(ops: seq<Op>)
    requires SavesNonNegative(ops)
    ensures Consistent(Apply(EmptyHistory(), ops))
    ensures Apply(EmptyHistory(), ops).totalSessions == |Apply(EmptyHistory(), ops).sessions|
  {
    LedgerStaysConsistent(EmptyHistory(), ops);
  }

  // ---------------------------------------------------------------------
  // The manager

  /**
    `HistoryManager`. The file is `disk`; whether writing to its location
    succeeds is `writable` (creating the parent directory and the atomic
    write either both succeed or leave the file as it was). Another instance
    may write the same file at any time (`OtherInstanceWrites`), which this
    manager's cache does not see.
   */
  class HistoryManager {
    var disk: Disk
    const writable: bool
    var cachedHistory: Option<HistoryFile>

    /** The cache, when filled, holds what the file holds. */
    ghost predicate Coherent()
      reads this
    {
      cachedHistory.Some? ==> disk == Holds(cachedHistory.value)
    }

    /** `init(historyFileURL:)`: nothing cached yet. */
    constructor(disk: Disk, writable: bool)
      ensures this.disk == disk && this.writable == writable && cachedHistory == None
      ensures Coherent()
    {
      this.disk := disk;
      this.writable := writable;
      cachedHistory := None;
    }

    /**
      Another `HistoryManager` writing `d` to the same file: the file changes
      and this manager's cache stays as it was.
     */
    method OtherInstanceWrites(d: Disk)
      modifies this`disk
      ensures disk == d && cachedHistory == old(cachedHistory)
    {
      disk := d;
    }

    /** `loadHistoryFile()`: a decoded file is cached; a missing one reads as empty and is not. */
    method LoadHistoryFile() returns (r: Result<HistoryFile, HistoryError>)
      modifies this`cachedHistory
      ensures r == Load(old(cachedHistory), disk)
      ensures cachedHistory == LoadedCache(old(cachedHistory), disk)
      ensures old(Coherent()) ==> Coherent()
    {
      if cachedHistory.Some? {
        return Success(cachedHistory.value);
      }
      match disk
      case NoFile =>
        return Success(EmptyHistory());
      case Unreadable =>
        return Failure(ReadFailed);
      case Holds(history) =>
        cachedHistory := Some(history);
        return Success(history);
    }

    /** `writeHistoryFile(_:)`: the file and then the cache hold `history`, or nothing changes. */
    method WriteHistoryFile(history: HistoryFile) returns (r: Result<(), HistoryError>)
      modifies this
      ensures writable ==> r == Success(()) && disk == Holds(history) && cachedHistory == Some(history)
      ensures !writable ==> r == Failure(WriteFailed) && disk == old(disk) && cachedHistory == old(cachedHistory)
      ensures old(Coherent()) || writable ==> Coherent()
    {
      if !writable {
        return Failure(WriteFailed);
      }
      disk := Holds(history);
      cachedHistory := Some(history);
      return Success(());
    }

    /**
      `saveSession(_:)`: the loaded history, which is the cache when there is
      one, gets the session in front and is written back.
     */
    method SaveSession(session: CleanupSession) returns (r: Result<(), HistoryError>)
      modifies this
      ensures r.Success? <==> Load(old(cachedHistory), old(disk)).Success? && writable
      ensures Load(old(cachedHistory), old(disk)).Failure? ==> r == Failure(ReadFailed)
      ensures r.Success? ==> disk == Holds(Saved(Load(old(cachedHistory), old(disk)).value, session))
      ensures r.Failure? ==> disk == old(disk)
      ensures r.Success? ==> cachedHistory == Some(Saved(Load(old(cachedHistory), old(disk)).value, session))
      ensures r.Failure? ==> cachedHistory == LoadedCache(old(cachedHistory), old(disk))
      ensures old(Coherent()) ==> Coherent()
    {
      var loaded := LoadHistoryFile();
      if loaded.Failure? {
        return Failure(loaded.error);
      }
      var history := loaded.value;
      history := history.(sessions := [session] + history.sessions);
      history := history.(totalFilesDeleted := history.totalFilesDeleted + session.filesDeleted);
      history := history.(totalSpaceSaved := history.totalSpaceSaved + session.bytesRecovered);
      history := history.(totalSessions := history.totalSessions + 1);
      r := WriteHistoryFile(history);
    }

    /** `loadSessions()` */
    method LoadSessions() returns (r: Result<seq<CleanupSession>, HistoryError>)
      modifies this`cachedHistory
      ensures Load(old(cachedHistory), disk).Success? ==> r == Success(Load(old(cachedHistory), disk).value.sessions)
      ensures Load(old(cachedHistory), disk).Failure? ==> r == Failure(ReadFailed)
      ensures cachedHistory == LoadedCache(old(cachedHistory), disk)
      ensures old(Coherent()) ==> Coherent()
    {
      var loaded := LoadHistoryFile();
      if loaded.Failure? {
        return Failure(loaded.error);
      }
      return Success(loaded.value.sessions);
    }

    /** `loadStats()` */
    method LoadStats() returns (r: Result<SavingsStats, HistoryError>)
      modifies this`cachedHistory
      ensures Load(old(cachedHistory), disk).Success? ==> r == Success(StatsOf(Load(old(cachedHistory), disk).value))
      ensures Load(old(cachedHistory), disk).Failure? ==> r == Failure(ReadFailed)
      ensures cachedHistory == LoadedCache(old(cachedHistory), disk)
      ensures old(Coherent()) ==> Coherent()
    {
      var loaded := LoadHistoryFile();
      if loaded.Failure? {
        return Failure(loaded.error);
      }
      return Success(StatsOf(loaded.value));
    }

    /** `deleteSession(_:)`: with no session of that id nothing is written. */
    method DeleteSession(session: CleanupSession) returns (r: Result<(), HistoryError>)
      modifies this
      ensures Load(old(cachedHistory), old(disk)).Failure? ==> r == Failure(ReadFailed) && disk == old(disk)
      ensures Load(old(cachedHistory), old(disk)).Success? && FirstIndexOf(Load(old(cachedHistory), old(disk)).value.sessions, session.id).None? ==>
                r == Success(()) && disk == old(disk)
      ensures Load(old(cachedHistory), old(disk)).Success? && FirstIndexOf(Load(old(cachedHistory), old(disk)).value.sessions, session.id).Some? ==>
                (r.Success? <==> writable) &&
                disk == (if writable then Holds(Deleted(Load(old(cachedHistory), old(disk)).value, session.id)) else old(disk)) &&
                cachedHistory == (if writable then Some(Deleted(Load(old(cachedHistory), old(disk)).value, session.id))
                                  else LoadedCache(old(cachedHistory), old(disk)))
      ensures r.Failure? || FirstIndexOf(Load(old(cachedHistory), old(disk)).value.sessions, session.id).None? ==>
                cachedHistory == LoadedCache(old(cachedHistory), old(disk))
      ensures old(Coherent()) ==> Coherent()
    {
      var loaded := LoadHistoryFile();
      if loaded.Failure? {
        return Failure(loaded.error);
      }
      var history := loaded.value;
      var found := FindSession(history.sessions, session.id);
      if found.None? {
        return Success(());
      }
      var index := found.value;
      var removedSession := history.sessions[index];
      history := history.(sessions := history.sessions[..index] + history.sessions[index + 1..]);
      history := history.(totalFilesDeleted := history.totalFilesDeleted - removedSession.filesDeleted);
      history := history.(totalSpaceSaved := history.totalSpaceSaved - removedSession.bytesRecovered);
      history := history.(totalSessions := history.totalSessions - 1);
      history := history.(totalFilesDeleted := Clamp(history.totalFilesDeleted));
      history := history.(totalSpaceSaved := Clamp(history.totalSpaceSaved));
      history := history.(totalSessions := Clamp(history.totalSessions));
      r := WriteHistoryFile(history);
    }

    /** `firstIndex(where:)` as the linear search it performs. */
    static method FindSession(sessions: seq<CleanupSession>, id: Uuid) returns (r: Option<nat>)
      ensures r == FirstIndexOf(sessions, id)
    {
      var i := 0;
      while i < |sessions|
        invariant 0 <= i <= |sessions|
        invariant forall k :: 0 <= k < i ==> sessions[k].id != id
      {
        if sessions[i].id == id {
          FirstIndexUnique(sessions, id, i);
          return Some(i);
        }
        i := i + 1;
      }
      FirstIndexUnique(sessions, id, |sessions|);
      return None;
    }

    /** `clearHistory()`: an empty history is written, not the file removed. */
    method ClearHistory() returns (r: Result<(), HistoryError>)
      modifies this
      ensures writable ==> r == Success(()) && disk == Holds(EmptyHistory())
      ensures !writable ==> r == Failure(WriteFailed) && disk == old(disk)
      ensures writable ==> cachedHistory == Some(EmptyHistory())
      ensures !writable ==> cachedHistory == old(cachedHistory)
      ensures writable || old(Coherent()) ==> Coherent()
    {
      r := WriteHistoryFile(EmptyHistory());
    }

    /**
      `invalidateCache()`: the next load reads the file, whatever another
      instance wrote to it since this one last read or wrote it.
     */
    method InvalidateCache()
      modifies this`cachedHistory
      ensures cachedHistory == None
      ensures Coherent() && Load(cachedHistory, disk) == Read(disk)
    {
      cachedHistory := None;
    }
  }

  /** A filled cache hides the file: loading gives the cached history whatever the file holds. */
  lemma CacheHidesFile(cached: HistoryFile, d1: Disk, d2: Disk)
    ensures Load(Some(cached), d1) == Success(cached) && Load(Some(cached), d2) == Success(cached)
  {
  }

  /**
    The lost update a stale cache causes: when another instance saved `other`
    after this manager cached `cached`, saving `session` here writes a history
    without `other`.
   */
  lemma StaleSaveLosesOtherWrites(cached: HistoryFile, onDisk: HistoryFile, session: CleanupSession, other: CleanupSession)
    requires other in onDisk.sessions && other !in cached.sessions && other != session
    ensures other !in Saved(Load(Some(cached), Holds(onDisk)).value, session).sessions
  {
  }

  /** After `invalidateCache()`, saving keeps every session the file held, with `session` in front. */
  lemma InvalidatedSaveKeepsOtherWrites(onDisk: HistoryFile, session: CleanupSession)
    ensures Saved(Load(None, Holds(onDisk)).value, session).sessions == [session] + onDisk.sessions
    ensures forall x :: x in onDisk.sessions ==> x in Saved(Load(None, Holds(onDisk)).value, session).sessions
  {
  }

  /** The first match is the first position with that id, and there is none when no position has it. */
  lemma FirstIndexUnique(ss: seq<CleanupSession>, id: Uuid, i: nat)
    requires i <= |ss| && forall k :: 0 <= k < i ==> ss[k].id != id
    requires i < |ss| ==> ss[i].id == id
    ensures FirstIndexOf(ss, id) == if i < |ss| then Some(i) else None
  {
  }
}
