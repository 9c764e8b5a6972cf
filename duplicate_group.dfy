/** A set of files with identical size and full hash. */
module DuplicateGroups {
  import opened ScannedFiles

  /** `DuplicateGroup`; its `id` (a fresh UUID that only list views use) is not modelled. */
  datatype DuplicateGroup = DuplicateGroup(hash: string, size: nat, files: seq<ScannedFile>)
  {
    /** `duplicateCount` */
    function DuplicateCount(): (n: nat)
      ensures n == |files|
    {
      |files|
    }

    /** `potentialSavings`: the bytes freed by keeping one member and trashing the rest. */
    function PotentialSavings(): nat
    {
      if |files| > 1 then size * (|files| - 1) else 0
    }

    /** `totalSize` */
    function TotalSize(): nat
    {
      size * |files|
    }

    /** `fileExtension`: that of the first member, or "" for an empty group. */
    function FileExtension(): (r: string)
      ensures |files| > 0 ==> r == files[0].FileExtension()
      ensures |files| == 0 ==> r == ""
    {
      if |files| > 0 then files[0].FileExtension() else ""
    }

    /** `fileName`: that of the first member, or "Unknown" for an empty group. */
    function FileName(): (r: string)
      ensures |files| > 0 ==> r == files[0].FileName()
      ensures |files| == 0 ==> r == "Unknown"
    {
      if |files| > 0 then files[0].FileName() else "Unknown"
    }

    /** The invariant the detector establishes: at least two members, all of the group's size and hash. */
    ghost predicate Valid()
    {
      && |files| >= 2
      && forall i :: 0 <= i < |files| ==> files[i].size == size && files[i].fullHash.Some? && files[i].fullHash.value == hash
    }
  }

  /** The sum of the sizes of a list of files. */
  function SumSizes(fs: seq<ScannedFile>): nat
  {
    if |fs| == 0 then 0 else SumSizes(fs[..|fs| - 1]) + fs[|fs| - 1].size
  }

  /** The sum over two lists is the sum of their sums. */
  lemma {:induction false} SumSizesAppend(a: seq<ScannedFile>, b: seq<ScannedFile>)
    ensures SumSizes(a + b) == SumSizes(a) + SumSizes(b)
    decreases |b|
  {
    if |b| > 0 {
      assert (a + b)[..|a + b| - 1] == a + b[..|b| - 1];
      SumSizesAppend(a, b[..|b| - 1]);
    } else {
      assert a + b == a;
    }
  }

  lemma {:induction false} SumSizesUniform(fs: seq<ScannedFile>, s: nat)
    requires forall i :: 0 <= i < |fs| ==> fs[i].size == s
    ensures SumSizes(fs) == s * |fs|
  {
    if |fs| > 0 {
      SumSizesUniform(fs[..|fs| - 1], s);
    }
  }

  /**
    The savings and the total size of a group agree with its members: when
    every member has the group's size, `totalSize` is the sum of the members'
    sizes, `potentialSavings` the sum over every member but the first, and
    `totalSize == potentialSavings + size` for a non-empty group; an empty or
    single-member group saves nothing.
   */
  lemma SavingsFromMembers(g: DuplicateGroup)
    requires forall i :: 0 <= i < |g.files| ==> g.files[i].size == g.size
    ensures g.TotalSize() == SumSizes(g.files)
    ensures |g.files| >= 1 ==> g.PotentialSavings() == SumSizes(g.files[1..])
    ensures |g.files| >= 1 ==> g.TotalSize() == g.PotentialSavings() + g.size
    ensures |g.files| <= 1 ==> g.PotentialSavings() == 0
  {
    SumSizesUniform(g.files, g.size);
    if |g.files| >= 1 {
      SumSizesUniform(g.files[1..], g.size);
    }
  }

  /** `potentialSavings == size * (count - 1)` for two or more members, and never exceeds `totalSize`. */
  lemma SavingsFormula(g: DuplicateGroup)
    ensures |g.files| >= 2 ==> g.PotentialSavings() == g.size * (g.DuplicateCount() - 1)
    ensures g.PotentialSavings() <= g.TotalSize()
    ensures |g.files| >= 1 ==> g.TotalSize() == g.PotentialSavings() + g.size
  {
  }
}
