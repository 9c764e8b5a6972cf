/** `HistoryViewModel`: the history screen's sessions and the totals computed from them. */
module HistoryViewModels {
  import opened Wrappers
  import opened ScannedFiles
  import opened CleanupSessions

  /** `removeAll { $0.id == id }`: the sessions with another id, in their order. */
  function Without(ss: seq<CleanupSession>, id: Uuid): (r: seq<CleanupSession>)
    ensures forall x :: x in r <==> x in ss && x.id != id
    ensures |r| <= |ss|
  {
    if |ss| == 0 then []
    else (if ss[0].id == id then [] else [ss[0]]) + Without(ss[1..], id)
  }

  /** Filtering a concatenation filters each part: the kept sessions keep their order. */
  lemma {:induction false} WithoutAppend(a: seq<CleanupSession>, b: seq<CleanupSession>, id: Uuid)
    ensures Without(a + b, id) == Without(a, id) + Without(b, id)
    decreases |a|
  {
    if |a| > 0 {
      assert (a + b)[1..] == a[1..] + b;
      WithoutAppend(a[1..], b, id);
    } else {
      assert a + b == b;
    }
  }

  /** With no session of that id, nothing is removed. */
  lemma {:induction false} WithoutUnknown(ss: seq<CleanupSession>, id: Uuid)
    requires forall k :: 0 <= k < |ss| ==> ss[k].id != id
    ensures Without(ss, id) == ss
    decreases |ss|
  {
    if |ss| > 0 {
      assert ss[0].id != id;
      WithoutUnknown(ss[1..], id);
    }
  }

  /** When ids are unique, removing one that is present removes exactly one session. */
  lemma {:induction false} WithoutUniqueId(ss: seq<CleanupSession>, id: Uuid, k: nat)
    requires k < |ss| && ss[k].id == id
    requires forall i, j :: 0 <= i < j < |ss| ==> ss[i].id != ss[j].id
    ensures |Without(ss, id)| == |ss| - 1
    decreases |ss|
  {
    if k == 0 {
      WithoutUnknown(ss[1..], id);
    } else {
      assert ss[0].id != id;
      WithoutUniqueId(ss[1..], id, k - 1);
    }
  }

  /** `HistoryViewModel` */
  class HistoryViewModel {
    var sessions: seq<CleanupSession>
    var stats: Option<SavingsStats>
    var isLoading: bool

    /** `init()`: loads the sessions (none yet) and the stats computed from them. */
    constructor()
      ensures sessions == [] && stats == Some(EmptyStats()) && !isLoading
    {
      sessions := [];
      stats := None;
      isLoading := false;
      new;
      LoadSessions();
      LoadStats();
    }

    /** `loadSessions()`: the source leaves the sessions as they are. */
    method LoadSessions()
      ensures sessions == old(sessions)
    {
    }

    /** `loadStats()` */
    method LoadStats()
      modifies this
      ensures sessions == old(sessions) && isLoading == old(isLoading)
      ensures stats == Some(AddAll(EmptyStats(), sessions))
    {
      var computed := ComputeStatsFromSessions();
      stats := Some(computed);
    }

    /** `refresh()` */
    method Refresh()
      modifies this
      ensures sessions == old(sessions) && isLoading == old(isLoading)
      ensures stats == Some(AddAll(EmptyStats(), sessions))
    {
      LoadSessions();
      LoadStats();
    }

    /** `deleteSession(_:)`: every session with that id goes, then the stats are recomputed. */
    method DeleteSession(session: CleanupSession)
      modifies this
      ensures sessions == Without(old(sessions), session.id) && isLoading == old(isLoading)
      ensures stats == Some(AddAll(EmptyStats(), sessions))
    {
      sessions := Without(sessions, session.id);
      var computed := ComputeStatsFromSessions();
      stats := Some(computed);
    }

    /** `clearHistory()` */
    method ClearHistory()
      modifies this
      ensures sessions == [] && stats == Some(EmptyStats()) && isLoading == old(isLoading)
    {
      sessions := [];
      stats := Some(EmptyStats());
    }

    /**
      `computeStatsFromSessions()`: `add` each session in turn to `.empty`,
      which totals their files and bytes and counts them.
     */
    method ComputeStatsFromSessions() returns (r: SavingsStats)
      ensures r == AddAll(EmptyStats(), sessions)
      ensures r == SavingsStats(SumFilesDeleted(sessions), SumBytesRecovered(sessions), |sessions|)
    {
      r := EmptyStats();
      var i := 0;
      while i < |sessions|
        invariant 0 <= i <= |sessions|
        invariant AddAll(r, sessions[i..]) == AddAll(EmptyStats(), sessions)
      {
        assert sessions[i..][1..] == sessions[i + 1..];
        r := r.Add(sessions[i]);
        i := i + 1;
      }
      AddAllSums(EmptyStats(), sessions);
    }
  }
}
