/** The summary of one batch trash operation. */
module TrashResults {
  import opened Paths

  /** `FailedFile.FailureReason` */
  datatype FailureReason = NotFound | PermissionDenied | Unknown(message: string)
  {
    /** `localizedDescription` */
    function Description(): (r: string)
      ensures NotFound? ==> r == "File not found"
      ensures PermissionDenied? ==> r == "Permission denied"
      ensures Unknown? ==> r == message
    {
      match this
      case NotFound => "File not found"
      case PermissionDenied => "Permission denied"
      case Unknown(m) => m
    }
  }

  /** A file that could not be moved to the trash. */
  datatype FailedFile = FailedFile(url: Url, reason: FailureReason)

  datatype TrashResult = TrashResult(trashedCount: int, bytesFreed: int, failedFiles: seq<FailedFile>)
  {
    /** `wasCompleteSuccess`: every file went to the trash, and there was at least one. */
    predicate WasCompleteSuccess() { |failedFiles| == 0 && trashedCount > 0 }

    /** `wasPartialSuccess`: some files went to the trash and some failed. */
    predicate WasPartialSuccess() { |failedFiles| != 0 && trashedCount > 0 }

    /** `wasCompleteFailure`: nothing went to the trash and something failed. */
    predicate WasCompleteFailure() { trashedCount == 0 && |failedFiles| != 0 }

    /** `wasEmpty`: nothing went to the trash and nothing failed. */
    predicate WasEmpty() { trashedCount == 0 && |failedFiles| == 0 }

    /** How many of the four outcome predicates hold. */
    function OutcomeCount(): (n: nat)
      ensures n <= 4
    {
      (if WasCompleteSuccess() then 1 else 0) + (if WasPartialSuccess() then 1 else 0) +
      (if WasCompleteFailure() then 1 else 0) + (if WasEmpty() then 1 else 0)
    }
  }

  /**
    For a non-negative count exactly one of the four outcomes holds, and the
    outcome is fixed by (trashedCount > 0, failedFiles is empty); a negative
    count satisfies none of them.
   */
  lemma OutcomesPartition(r: TrashResult)
    ensures r.trashedCount >= 0 ==> r.OutcomeCount() == 1
    ensures r.trashedCount < 0 ==> r.OutcomeCount() == 0
    ensures r.WasCompleteSuccess() <==> (|r.failedFiles| == 0 && r.trashedCount > 0)
    ensures r.WasPartialSuccess() <==> (|r.failedFiles| > 0 && r.trashedCount > 0)
    ensures r.WasCompleteFailure() <==> (|r.failedFiles| > 0 && r.trashedCount == 0)
    ensures r.WasEmpty() <==> (|r.failedFiles| == 0 && r.trashedCount == 0)
  {
  }
}
