/** A file that could not be processed, with the reason. */
module SkippedFiles {
  import opened Wrappers
  import opened Paths
  import opened ScannedFiles

  /** `SkippedFile.SkipReason` */
  datatype SkipReason = PermissionDenied | ReadError(message: string) | HashingFailed(message: string)
  {
    /** `localizedDescription` */
    function Description(): (r: string)
      ensures PermissionDenied? ==> r == "Permission denied"
      ensures ReadError? ==> r == "Read error: " + message
      ensures HashingFailed? ==> r == "Hashing failed: " + message
    {
      match this
      case PermissionDenied => "Permission denied"
      case ReadError(m) => "Read error: " + m
      case HashingFailed(m) => "Hashing failed: " + m
    }
  }

  /** `SkippedFile`; its `id` (a fresh UUID that only list views use) is not modelled. */
  datatype SkippedFile = SkippedFile(url: Url, reason: SkipReason)
  {
    /** `fileName` */
    function FileName(): string
    {
      LastPathComponent(url)
    }

    /** `directoryPath` */
    function DirectoryPath(): string
    {
      Paths.DirectoryPath(url)
    }
  }

  /** Reads a reason back from its description: the inverse of `Description`. */
  function ParseDescription(s: string): Option<SkipReason>
  {
    if s == "Permission denied" then Some(PermissionDenied)
    else if HasPrefix(s, "Read error: ") then Some(ReadError(s[|"Read error: "|..]))
    else if HasPrefix(s, "Hashing failed: ") then Some(HashingFailed(s[|"Hashing failed: "|..]))
    else None
  }

  /** A description names its reason exactly: parsing it gives the reason back. */
  lemma DescriptionRoundTrip(r: SkipReason)
    ensures ParseDescription(r.Description()) == Some(r)
  {
    var d := r.Description();
    match r
    case PermissionDenied =>
    case ReadError(m) =>
      assert d[0] == 'R';
      assert d[..|"Read error: "|] == "Read error: ";
    case HashingFailed(m) =>
      assert d[0] == 'H';
      assert d[..|"Hashing failed: "|] == "Hashing failed: ";
  }

  /** Hence two reasons with the same description are the same reason. */
  lemma DescriptionInjective(a: SkipReason, b: SkipReason)
    requires a.Description() == b.Description()
    ensures a == b
  {
    DescriptionRoundTrip(a);
    DescriptionRoundTrip(b);
  }
}
