/** The policy deciding which directories are walked and which files are kept. */
module Filters {
  import opened Paths

  /** The names never walked while `excludeSystemDirectories` is on. */
  const SystemDirectories: set<string> := {
    ".Trash", ".Spotlight-V100", ".fseventsd", ".DocumentRevisions-V100", ".TemporaryItems",
    "Library", "System", "Applications", ".git", ".svn", "node_modules", ".DS_Store"
  }

  /** `FileFilters`; each default is the source initializer's default. */
  datatype FileFilters = FileFilters(
    minimumFileSize: int := 1,
    excludeHiddenFiles: bool := true,
    excludeSystemDirectories: bool := true,
    excludedExtensions: set<string> := {},
    excludedDirectoryNames: set<string> := {})
  {
    /** `shouldIncludeFile(at:size:)` */
    predicate ShouldIncludeFile(url: Url, size: int)
      ensures ShouldIncludeFile(url, size) ==> size >= minimumFileSize
      ensures ShouldIncludeFile(url, size) ==> LowercasedExtension(url) !in excludedExtensions
      ensures excludeHiddenFiles && HasPrefix(LastPathComponent(url), ".") ==> !ShouldIncludeFile(url, size)
    {
      if size < minimumFileSize then false
      else if excludeHiddenFiles && HasPrefix(LastPathComponent(url), ".") then false
      else if LowercasedExtension(url) in excludedExtensions then false
      else true
    }

    /** `shouldTraverseDirectory(at:)`: a verdict on the last path component alone. */
    predicate ShouldTraverseDirectory(url: Url)
      ensures ShouldTraverseDirectory(url) ==> LastPathComponent(url) !in excludedDirectoryNames
      ensures excludeSystemDirectories && LastPathComponent(url) in SystemDirectories ==> !ShouldTraverseDirectory(url)
      ensures excludeHiddenFiles && HasPrefix(LastPathComponent(url), ".") ==> !ShouldTraverseDirectory(url)
    {
      var dirName := LastPathComponent(url);
      if excludeHiddenFiles && HasPrefix(dirName, ".") then false
      else if excludeSystemDirectories && dirName in SystemDirectories then false
      else if dirName in excludedDirectoryNames then false
      else true
    }
  }

  /** `FileFilters.default` */
  function DefaultFilters(): (f: FileFilters)
    ensures f.minimumFileSize == 1 && f.excludeHiddenFiles && f.excludeSystemDirectories
    ensures f.excludedExtensions == {} && f.excludedDirectoryNames == {}
  {
    FileFilters()
  }

  /**
    The size floor: smaller files are never kept, and at or above the floor
    the size plays no further part, so a file of exactly the minimum size is
    kept whenever its name and extension pass.
   */
  lemma SizeFloor(f: FileFilters, url: Url, size: int)
    ensures size < f.minimumFileSize ==> !f.ShouldIncludeFile(url, size)
    ensures size >= f.minimumFileSize ==> (f.ShouldIncludeFile(url, size) <==> f.ShouldIncludeFile(url, f.minimumFileSize))
  {
  }

  /**
    With `excludeHiddenFiles` off a dot-name is not rejected on that ground:
    files and directories are judged by the remaining rules only.
   */
  lemma HiddenFlagOff(f: FileFilters, url: Url, size: int)
    requires !f.excludeHiddenFiles
    ensures f.ShouldIncludeFile(url, size) <==>
      size >= f.minimumFileSize && LowercasedExtension(url) !in f.excludedExtensions
    ensures f.ShouldTraverseDirectory(url) <==>
      !(f.excludeSystemDirectories && LastPathComponent(url) in SystemDirectories) &&
      LastPathComponent(url) !in f.excludedDirectoryNames
  {
  }

  /**
    The extension is compared lowercased: two files whose extensions differ
    only in letter case, and whose names are both hidden or both not, get
    the same verdict at every size.
   */
  lemma ExtensionCaseInsensitive(f: FileFilters, a: Url, b: Url, size: int)
    requires LowercasedExtension(a) == LowercasedExtension(b)
    requires HasPrefix(LastPathComponent(a), ".") == HasPrefix(LastPathComponent(b), ".")
    ensures f.ShouldIncludeFile(a, size) == f.ShouldIncludeFile(b, size)
  {
  }

  /** An entry "tmp" rejects the extensions "TMP", "Tmp" and "tmp" alike. */
  lemma ExtensionTmpInAnyCase(f: FileFilters, url: Url, size: int)
    requires "tmp" in f.excludedExtensions
    requires PathExtension(url) == "TMP" || PathExtension(url) == "Tmp" || PathExtension(url) == "tmp"
    ensures !f.ShouldIncludeFile(url, size)
  {
    var e := PathExtension(url);
    assert Lowercased(e) == [LowerChar(e[0]), LowerChar(e[1]), LowerChar(e[2])];
  }

  /**
    Two URLs with the same last component get the same verdict, and so does
    every URL whose last component is that of a rejected one.
   */
  lemma TraverseByLastComponent(f: FileFilters, a: Url, b: Url)
    requires LastPathComponent(a) == LastPathComponent(b)
    ensures f.ShouldTraverseDirectory(a) == f.ShouldTraverseDirectory(b)
  {
  }

  /**
    Under the defaults the last component alone decides: `/Library/Preferences`
    is walked, while `/Users/me/Library` (a home-relative Library) is not.
   */
  lemma DefaultTraversalExamples()
    ensures DefaultFilters().ShouldTraverseDirectory(Url(["Library", "Preferences"]))
    ensures !DefaultFilters().ShouldTraverseDirectory(Url(["Users", "me", "Library"]))
    ensures !DefaultFilters().ShouldTraverseDirectory(Url(["Users", "me", "project", "node_modules"]))
  {
    assert "Preferences"[0] != '.';
    assert "Preferences" !in SystemDirectories;
  }

  /**
    Names in `excludedDirectoryNames` are never walked, whatever the two
    flags say.
   */
  lemma ExcludedNamesAlwaysRejected(f: FileFilters, url: Url, hidden: bool, system: bool)
    requires LastPathComponent(url) in f.excludedDirectoryNames
    ensures !f.(excludeHiddenFiles := hidden, excludeSystemDirectories := system).ShouldTraverseDirectory(url)
  {
  }

  /**
    A permissive policy (both flags off, no exclusions) walks every
    directory and keeps a file exactly when it reaches the minimum size.
   */
  lemma PermissivePolicy(f: FileFilters, url: Url, size: int)
    requires !f.excludeHiddenFiles && !f.excludeSystemDirectories
    requires f.excludedExtensions == {} && f.excludedDirectoryNames == {}
    ensures f.ShouldTraverseDirectory(url)
    ensures f.ShouldIncludeFile(url, size) <==> size >= f.minimumFileSize
  {
  }
}
