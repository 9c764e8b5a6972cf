/** A file found by the scanner, travelling by value through the hashing pipeline. */
module ScannedFiles {
  import opened Wrappers
  import opened Paths

  /** A `UUID`, as an opaque value. */
  type Uuid = nat

  /** A `Date`, as an opaque value. */
  type Date = int

  /**
    `ScannedFile`. Only `partialHash` and `fullHash` are `var` in the source;
    the hasher produces updated copies through `WithPartialHash` and
    `WithFullHash`, which keep every other field.
   */
  datatype ScannedFile = ScannedFile(
    id: Uuid,
    url: Url,
    size: nat,
    creationDate: Option<Date>,
    modificationDate: Option<Date>,
    partialHash: Option<string>,
    fullHash: Option<string>)
  {
    /** `fileName` */
    function FileName(): string
    {
      LastPathComponent(url)
    }

    /** `directoryPath` */
    function DirectoryPath(): string
    {
      Paths.DirectoryPath(url)
    }

    /** `fileExtension` */
    function FileExtension(): string
    {
      LowercasedExtension(url)
    }

    /** The fields the source declares with `let`. */
    function Fixed(): (Uuid, Url, nat, Option<Date>, Option<Date>)
    {
      (id, url, size, creationDate, modificationDate)
    }

    /** `updatedFile.partialHash = h` on a copy. */
    function WithPartialHash(h: string): (r: ScannedFile)
      ensures r.Fixed() == Fixed() && r.fullHash == fullHash && r.partialHash == Some(h)
    {
      this.(partialHash := Some(h))
    }

    /** `updatedFile.fullHash = h` on a copy. */
    function WithFullHash(h: string): (r: ScannedFile)
      ensures r.Fixed() == Fixed() && r.partialHash == partialHash && r.fullHash == Some(h)
    {
      this.(fullHash := Some(h))
    }
  }

  /** `ScannedFile(id:url:size:creationDate:modificationDate:)` with the hash parameters left at their `nil` defaults. */
  function NewScannedFile(id: Uuid, url: Url, size: nat, creationDate: Option<Date> := None,
                          modificationDate: Option<Date> := None): (f: ScannedFile)
    ensures f.partialHash == None && f.fullHash == None
    ensures f.Fixed() == (id, url, size, creationDate, modificationDate)
  {
    ScannedFile(id, url, size, creationDate, modificationDate, None, None)
  }
}
