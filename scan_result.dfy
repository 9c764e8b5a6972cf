/** The summary of one completed scan. */
module ScanResults {
  import opened Paths
  import opened ScannedFiles
  import opened SkippedFiles
  import opened DuplicateGroups

  datatype ScanResult = ScanResult(
    scanDate: Date,
    scannedDirectory: Url,
    totalFilesScanned: int,
    totalBytesScanned: int,
    duplicateGroups: seq<DuplicateGroup>,
    scanDuration: real,
    errors: seq<string> := [],
    skippedFiles: seq<SkippedFile> := [])
  {
    /** `totalDuplicateFiles` */
    function TotalDuplicateFiles(): nat { SumCounts(duplicateGroups) }

    /** `totalDuplicateGroups` */
    function TotalDuplicateGroups(): nat { |duplicateGroups| }

    /** `potentialSavings` */
    function PotentialSavings(): nat { SumSavings(duplicateGroups) }
  }

  /** `groups.reduce(0) { $0 + $1.duplicateCount }` */
  function SumCounts(gs: seq<DuplicateGroup>): nat
  {
    if |gs| == 0 then 0 else SumCounts(gs[..|gs| - 1]) + gs[|gs| - 1].DuplicateCount()
  }

  /** `groups.reduce(0) { $0 + $1.potentialSavings }` */
  function SumSavings(gs: seq<DuplicateGroup>): nat
  {
    if |gs| == 0 then 0 else SumSavings(gs[..|gs| - 1]) + gs[|gs| - 1].PotentialSavings()
  }

  /** `groups.reduce(0) { $0 + $1.size }` */
  function SumGroupSizes(gs: seq<DuplicateGroup>): nat
  {
    if |gs| == 0 then 0 else SumGroupSizes(gs[..|gs| - 1]) + gs[|gs| - 1].size
  }

  /** `groups.reduce(0) { $0 + $1.totalSize }` */
  function SumTotalSizes(gs: seq<DuplicateGroup>): nat
  {
    if |gs| == 0 then 0 else SumTotalSizes(gs[..|gs| - 1]) + gs[|gs| - 1].TotalSize()
  }

  /** A result built from no groups reports nothing. */
  lemma NoGroupsNoTotals(r: ScanResult)
    requires r.duplicateGroups == []
    ensures r.TotalDuplicateFiles() == 0 && r.TotalDuplicateGroups() == 0 && r.PotentialSavings() == 0
  {
  }

  /** The totals are additive: the totals of `a + b` are those of `a` plus those of `b`. */
  lemma {:induction false} TotalsAppend(a: seq<DuplicateGroup>, b: seq<DuplicateGroup>)
    ensures SumCounts(a + b) == SumCounts(a) + SumCounts(b)
    ensures SumSavings(a + b) == SumSavings(a) + SumSavings(b)
  {
    if |b| > 0 {
      assert (a + b)[..|a + b| - 1] == a + b[..|b| - 1];
      TotalsAppend(a, b[..|b| - 1]);
    } else {
      assert a + b == a;
    }
  }

  /**
    For groups of detector output (two or more members each) the reported
    figures fit together: every group keeps exactly one member, so the
    savings are the total size minus one member's size per group, and there
    are at least twice as many duplicate files as groups.
   */
  lemma {:induction false} TotalsOfValidGroups(gs: seq<DuplicateGroup>)
    requires forall i :: 0 <= i < |gs| ==> |gs[i].files| >= 2
    ensures SumSavings(gs) + SumGroupSizes(gs) == SumTotalSizes(gs)
    ensures SumCounts(gs) >= 2 * |gs|
  {
    if |gs| > 0 {
      var last := gs[|gs| - 1];
      SavingsFormula(last);
      TotalsOfValidGroups(gs[..|gs| - 1]);
    }
  }
}
