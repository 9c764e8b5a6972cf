/** The progress signal emitted by the scanner and the detector. */
module ScanProgresses {
  import opened Wrappers
  import opened ScannedFiles

  /** `ScanPhase`, with its display strings. */
  datatype ScanPhase =
    | Idle | Enumerating | GroupingBySize | ComputingPartialHashes
    | ComputingFullHashes | FindingDuplicates | Completed | Cancelled | Failed
  {
    /** `rawValue` */
    function RawValue(): string
    {
      match this
      case Idle => "Idle"
      case Enumerating => "Discovering files"
      case GroupingBySize => "Grouping by size"
      case ComputingPartialHashes => "Computing partial hashes"
      case ComputingFullHashes => "Computing full hashes"
      case FindingDuplicates => "Finding duplicates"
      case Completed => "Completed"
      case Cancelled => "Cancelled"
      case Failed => "Failed"
    }
  }

  /** `ScanProgress`; each default is the source initializer's default. */
  datatype ScanProgress = ScanProgress(
    phase: ScanPhase := Idle,
    totalFiles: int := 0,
    processedFiles: int := 0,
    currentFile: Option<string> := None,
    bytesProcessed: int := 0,
    totalBytes: int := 0,
    startTime: Option<Date> := None,
    error: Option<string> := None)
  {
    /** `isActive`: the phases during which work is in flight. */
    predicate IsActive()
    {
      match phase
      case Idle | Completed | Cancelled | Failed => false
      case _ => true
    }

    /** `fileProgress`, over exact reals; 0 when there are no files. */
    function FileProgress(): (r: real)
      ensures totalFiles <= 0 ==> r == 0.0
      ensures 0 < totalFiles && 0 <= processedFiles <= totalFiles ==> 0.0 <= r <= 1.0
      ensures 0 < totalFiles && processedFiles == totalFiles ==> r == 1.0
    {
      if totalFiles > 0 then processedFiles as real / totalFiles as real else 0.0
    }

    /** `byteProgress`, over exact reals; 0 when there are no bytes. */
    function ByteProgress(): (r: real)
      ensures totalBytes <= 0 ==> r == 0.0
      ensures 0 < totalBytes && 0 <= bytesProcessed <= totalBytes ==> 0.0 <= r <= 1.0
      ensures 0 < totalBytes && bytesProcessed == totalBytes ==> r == 1.0
    {
      if totalBytes > 0 then bytesProcessed as real / totalBytes as real else 0.0
    }
  }

  /** `ScanProgress.idle` */
  function IdleProgress(): (p: ScanProgress)
    ensures p.phase == Idle && !p.IsActive()
    ensures p.totalFiles == 0 && p.processedFiles == 0 && p.bytesProcessed == 0 && p.totalBytes == 0
    ensures p.currentFile == None && p.startTime == None && p.error == None
    ensures p.FileProgress() == 0.0 && p.ByteProgress() == 0.0
  {
    ScanProgress()
  }

  /** The phases are active exactly when they are neither idle nor terminal. */
  lemma ActivePhases(p: ScanProgress)
    ensures !p.IsActive() <==> p.phase in {Idle, Completed, Cancelled, Failed}
    ensures p.IsActive() <==>
      p.phase in {Enumerating, GroupingBySize, ComputingPartialHashes, ComputingFullHashes, FindingDuplicates}
  {
  }

  /** Distinct phases have distinct display strings. */
  lemma RawValuesDistinct(a: ScanPhase, b: ScanPhase)
    requires a.RawValue() == b.RawValue()
    ensures a == b
  {
    var ra, rb := a.RawValue(), b.RawValue();
    assert ra[0] == rb[0] && |ra| == |rb|;
    if a.ComputingPartialHashes? || a.ComputingFullHashes? || b.ComputingPartialHashes? || b.ComputingFullHashes? {
      assert ra[10] == rb[10];
    }
  }
}
