/**
  `ScanViewModel`: the main screen's state. It holds the folder selection,
  runs a scan over the folders and then the duplicate detection, keeps the
  selection of files to trash, and updates the groups after trashing.
 */
module ScanViewModels {
  import opened Wrappers
  import opened Paths
  import opened ScannedFiles
  import opened DuplicateGroups
  import opened ScanResults
  import opened Filters
  import T = TrashResults
  import S = FileScanner
  import D = DuplicateDetector
  import H = FileHasher
  import Hex
  import P = ScanProgresses

  /** `AppState` */
  datatype AppState = Idle | Scanning | Results | Error(message: string)

  // ---------------------------------------------------------------------
  // Folder selection

  predicate Distinct<X(==)>(xs: seq<X>)
  {
    forall i, j :: 0 <= i < j < |xs| ==> xs[i] != xs[j]
  }

  /** `addFolder`: appended unless already selected. */
  function WithFolder(folders: seq<Url>, url: Url): (r: seq<Url>)
    ensures forall u :: u in r <==> u in folders || u == url
    ensures |folders| <= |r| && r[..|folders|] == folders
  {
    if url in folders then folders else folders + [url]
  }

  /** Adding never introduces a duplicate, and adding a selected folder changes nothing. */
  lemma AddFolderKeepsDistinct(folders: seq<Url>, url: Url)
    requires Distinct(folders)
    ensures Distinct(WithFolder(folders, url))
    ensures url in folders ==> WithFolder(folders, url) == folders
    ensures url !in folders ==> |WithFolder(folders, url)| == |folders| + 1
  {
    var r := WithFolder(folders, url);
    if url !in folders {
      forall i, j | 0 <= i < j < |r| ensures r[i] != r[j] {
        if j == |folders| {
          assert r[i] == folders[i];
        }
      }
    }
  }

  /** `removeFolder`: `removeAll { $0 == url }`. */
  function WithoutFolder(folders: seq<Url>, url: Url): (r: seq<Url>)
    ensures forall u :: u in r <==> u in folders && u != url
    ensures |r| <= |folders|
  {
    if |folders| == 0 then []
    else (if folders[0] == url then [] else [folders[0]]) + WithoutFolder(folders[1..], url)
  }

  /** Removing filters each part of a concatenation, so the other folders keep their order. */
  lemma {:induction false} WithoutFolderAppend(a: seq<Url>, b: seq<Url>, url: Url)
    ensures WithoutFolder(a + b, url) == WithoutFolder(a, url) + WithoutFolder(b, url)
    decreases |a|
  {
    if |a| > 0 {
      assert (a + b)[1..] == a[1..] + b;
      WithoutFolderAppend(a[1..], b, url);
    } else {
      assert a + b == b;
    }
  }

  /** Removing a folder that is not selected changes nothing. */
  lemma {:induction false} WithoutAbsentFolder(folders: seq<Url>, url: Url)
    requires url !in folders
    ensures WithoutFolder(folders, url) == folders
    decreases |folders|
  {
    if |folders| > 0 {
      assert folders[1..] + [] == folders[1..];
      WithoutAbsentFolder(folders[1..], url);
    }
  }

  /** Removing keeps the folders distinct. */
  lemma {:induction false} WithoutFolderKeepsDistinct(folders: seq<Url>, url: Url)
    requires Distinct(folders)
    ensures Distinct(WithoutFolder(folders, url))
    decreases |folders|
  {
    if |folders| > 0 {
      var tail := folders[1..];
      assert Distinct(tail) by {
        forall i, j | 0 <= i < j < |tail| ensures tail[i] != tail[j] {
          assert tail[i] == folders[i + 1] && tail[j] == folders[j + 1];
        }
      }
      WithoutFolderKeepsDistinct(tail, url);
      var rest := WithoutFolder(tail, url);
      if folders[0] != url {
        assert folders[0] !in tail;
        var r := [folders[0]] + rest;
        forall i, j | 0 <= i < j < |r| ensures r[i] != r[j] {
          if i == 0 {
            assert r[j] == rest[j - 1] && rest[j - 1] in rest;
          } else {
            assert r[i] == rest[i - 1] && r[j] == rest[j - 1];
          }
        }
      } else {
        assert [] + rest == rest;
      }
    }
  }

  // ---------------------------------------------------------------------
  // File selection

  /** `toggleFileSelection`: flips the membership of exactly that id. */
  function Toggled(ids: set<Uuid>, id: Uuid): (r: set<Uuid>)
    ensures id in r <==> id !in ids
    ensures forall x :: x != id ==> (x in r <==> x in ids)
  {
    if id in ids then ids - {id} else ids + {id}
  }

  /** Toggling changes the number of selected files by one, down when the id was selected. */
  lemma ToggleCount(ids: set<Uuid>, id: Uuid)
    ensures |Toggled(ids, id)| == if id in ids then |ids| - 1 else |ids| + 1
  {
    if id in ids {
      assert Toggled(ids, id) == ids - {id};
    } else {
      assert Toggled(ids, id) == ids + {id};
    }
  }

  /** Toggling twice restores the selection. */
  lemma ToggleTwice(ids: set<Uuid>, id: Uuid)
    ensures Toggled(Toggled(ids, id), id) == ids
  {
    var r := Toggled(Toggled(ids, id), id);
    forall x ensures x in r <==> x in ids {
      if x == id {
        assert x in Toggled(ids, id) <==> x !in ids;
      }
    }
  }

  /** The ids of a list of files. */
  function IdsOf(fs: seq<ScannedFile>): set<Uuid>
  {
    if |fs| == 0 then {} else IdsOf(fs[..|fs| - 1]) + {fs[|fs| - 1].id}
  }

  /** Every member's id is among the ids. */
  lemma {:induction false} IdsOfHas(fs: seq<ScannedFile>, k: nat)
    requires k < |fs|
    ensures fs[k].id in IdsOf(fs)
    decreases |fs|
  {
    if k < |fs| - 1 {
      var front := fs[..|fs| - 1];
      IdsOfHas(front, k);
      assert front[k] == fs[k];
    }
  }

  /** Every id among the ids is some member's. */
  lemma {:induction false} IdsOfFrom(fs: seq<ScannedFile>, x: Uuid) returns (k: nat)
    requires x in IdsOf(fs)
    ensures k < |fs| && fs[k].id == x
    decreases |fs|
  {
    var front := fs[..|fs| - 1];
    if x in IdsOf(front) {
      k := IdsOfFrom(front, x);
      assert front[k] == fs[k];
    } else {
      k := |fs| - 1;
    }
  }

  /** `dropFirst()` */
  function DropFirst(fs: seq<ScannedFile>): (r: seq<ScannedFile>)
    ensures |fs| > 0 ==> [fs[0]] + r == fs
    ensures |fs| == 0 ==> r == []
  {
    if |fs| == 0 then [] else fs[1..]
  }

  /** The ids `selectAllDuplicates` selects: every member of every group but the first. */
  function NonFirstIds(gs: seq<DuplicateGroup>): set<Uuid>
  {
    if |gs| == 0 then {} else NonFirstIds(gs[..|gs| - 1]) + IdsOf(DropFirst(gs[|gs| - 1].files))
  }

  /** Every member but the first of every group is selected. */
  lemma {:induction false} NonFirstIdsHas(gs: seq<DuplicateGroup>, g: nat, k: nat)
    requires g < |gs| && 1 <= k < |gs[g].files|
    ensures gs[g].files[k].id in NonFirstIds(gs)
    decreases |gs|
  {
    var front := gs[..|gs| - 1];
    if g < |gs| - 1 {
      NonFirstIdsHas(front, g, k);
      assert front[g] == gs[g];
    } else {
      var rest := DropFirst(gs[g].files);
      IdsOfHas(rest, k - 1);
      assert rest[k - 1] == gs[g].files[k];
    }
  }

  /** Nothing else is selected: every selected id is a member, not the first, of some group. */
  lemma {:induction false} NonFirstIdsFrom(gs: seq<DuplicateGroup>, x: Uuid) returns (g: nat, k: nat)
    requires x in NonFirstIds(gs)
    ensures g < |gs| && 1 <= k < |gs[g].files| && gs[g].files[k].id == x
    decreases |gs|
  {
    var front := gs[..|gs| - 1];
    if x in NonFirstIds(front) {
      g, k := NonFirstIdsFrom(front, x);
      assert front[g] == gs[g];
    } else {
      g := |gs| - 1;
      var rest := DropFirst(gs[g].files);
      var j := IdsOfFrom(rest, x);
      k := j + 1;
      assert rest[j] == gs[g].files[k];
    }
  }

  /** `selectAllDuplicates` selects exactly the members other than the first of each group. */
  lemma NonFirstIdsMembers(gs: seq<DuplicateGroup>, x: Uuid)
    ensures x in NonFirstIds(gs) <==> exists g, k :: 0 <= g < |gs| && 1 <= k < |gs[g].files| && gs[g].files[k].id == x
  {
    if x in NonFirstIds(gs) {
      var g, k := NonFirstIdsFrom(gs, x);
    }
    forall g, k | 0 <= g < |gs| && 1 <= k < |gs[g].files| && gs[g].files[k].id == x ensures x in NonFirstIds(gs) {
      NonFirstIdsHas(gs, g, k);
    }
  }

  /** The members of `fs` whose id is selected, in order. */
  function SelectedIn(fs: seq<ScannedFile>, ids: set<Uuid>): seq<ScannedFile>
  {
    if |fs| == 0 then []
    else SelectedIn(fs[..|fs| - 1], ids) + (if fs[|fs| - 1].id in ids then [fs[|fs| - 1]] else [])
  }

  /** The selected members of the groups, group by group: the files `trashSelectedFiles` collects. */
  function SelectedFiles(gs: seq<DuplicateGroup>, ids: set<Uuid>): seq<ScannedFile>
  {
    if |gs| == 0 then [] else SelectedFiles(gs[..|gs| - 1], ids) + SelectedIn(gs[|gs| - 1].files, ids)
  }

  /** One more file: selected ones are appended. */
  lemma SelectedInSnoc(fs: seq<ScannedFile>, ids: set<Uuid>, k: nat)
    requires k < |fs|
    ensures SelectedIn(fs[..k + 1], ids) == SelectedIn(fs[..k], ids) + (if fs[k].id in ids then [fs[k]] else [])
  {
    assert fs[..k + 1][..k] == fs[..k];
  }

  /** One more file adds its size when it is selected. */
  lemma SelectedInSizeStep(fs: seq<ScannedFile>, ids: set<Uuid>, k: nat)
    requires k < |fs|
    ensures SumSizes(SelectedIn(fs[..k + 1], ids)) == SumSizes(SelectedIn(fs[..k], ids)) + (if fs[k].id in ids then fs[k].size else 0)
  {
    SelectedInSnoc(fs, ids, k);
    var front := SelectedIn(fs[..k], ids);
    if fs[k].id in ids {
      SumSizesAppend(front, [fs[k]]);
      assert [fs[k]][..0] == [];
    } else {
      assert front + [] == front;
    }
  }

  /** One more group adds the sizes of its selected members. */
  lemma SelectedFilesSizeStep(gs: seq<DuplicateGroup>, ids: set<Uuid>, g: nat)
    requires g < |gs|
    ensures SumSizes(SelectedFiles(gs[..g + 1], ids)) == SumSizes(SelectedFiles(gs[..g], ids)) + SumSizes(SelectedIn(gs[g].files, ids))
  {
    assert gs[..g + 1][..g] == gs[..g];
    SumSizesAppend(SelectedFiles(gs[..g], ids), SelectedIn(gs[g].files, ids));
  }

  lemma {:induction false} SelectedInMembers(fs: seq<ScannedFile>, ids: set<Uuid>, f: ScannedFile)
    ensures f in SelectedIn(fs, ids) <==> f in fs && f.id in ids
    decreases |fs|
  {
    if |fs| > 0 {
      var front := fs[..|fs| - 1];
      SelectedInMembers(front, ids, f);
      assert fs == front + [fs[|fs| - 1]];
    }
  }

  /** A file is collected iff it is a member of some group and its id is selected. */
  lemma {:induction false} SelectedFilesMembers(gs: seq<DuplicateGroup>, ids: set<Uuid>, f: ScannedFile)
    ensures f in SelectedFiles(gs, ids) <==> f.id in ids && exists g :: 0 <= g < |gs| && f in gs[g].files
    decreases |gs|
  {
    if |gs| > 0 {
      var front := gs[..|gs| - 1];
      SelectedFilesMembers(front, ids, f);
      SelectedInMembers(gs[|gs| - 1].files, ids, f);
      if f.id in ids && exists g :: 0 <= g < |gs| && f in gs[g].files {
        var g :| 0 <= g < |gs| && f in gs[g].files;
        if g < |front| {
          assert front[g] == gs[g];
        }
      }
      if exists g :: 0 <= g < |front| && f in front[g].files {
        var g :| 0 <= g < |front| && f in front[g].files;
        assert gs[g] == front[g];
      }
    }
  }

  /** Every member of a group has the group's size. */
  ghost predicate Uniform(gs: seq<DuplicateGroup>)
  {
    forall g, k :: 0 <= g < |gs| && 0 <= k < |gs[g].files| ==> gs[g].files[k].size == gs[g].size
  }

  /** No two members of the groups share an id. */
  ghost predicate UniqueIds(gs: seq<DuplicateGroup>)
  {
    forall g1, k1, g2, k2 ::
      (0 <= g1 < |gs| && 0 <= k1 < |gs[g1].files| && 0 <= g2 < |gs| && 0 <= k2 < |gs[g2].files| &&
       gs[g1].files[k1].id == gs[g2].files[k2].id) ==> g1 == g2 && k1 == k2
  }

  /** A group whose first member is not selected and whose other members are yields exactly those others. */
  lemma {:induction false} SelectedInAllButFirst(fs: seq<ScannedFile>, ids: set<Uuid>)
    requires |fs| > 0 ==> fs[0].id !in ids
    requires forall k :: 1 <= k < |fs| ==> fs[k].id in ids
    ensures SelectedIn(fs, ids) == DropFirst(fs)
    decreases |fs|
  {
    if |fs| > 1 {
      var front := fs[..|fs| - 1];
      SelectedInAllButFirst(front, ids);
      assert DropFirst(front) + [fs[|fs| - 1]] == DropFirst(fs);
    } else if |fs| == 1 {
      assert fs[..0] == [];
    }
  }

  /** With every member but the first of each group selected, the selected bytes are the groups' savings. */
  lemma {:induction false} SavingsOfAllButFirst(gs: seq<DuplicateGroup>, ids: set<Uuid>)
    requires Uniform(gs)
    requires forall g :: 0 <= g < |gs| && |gs[g].files| > 0 ==> gs[g].files[0].id !in ids
    requires forall g, k :: 0 <= g < |gs| && 1 <= k < |gs[g].files| ==> gs[g].files[k].id in ids
    ensures SumSizes(SelectedFiles(gs, ids)) == SumSavings(gs)
    decreases |gs|
  {
    if |gs| > 0 {
      var front := gs[..|gs| - 1];
      var last := gs[|gs| - 1];
      assert Uniform(front) by {
        forall g, k | 0 <= g < |front| && 0 <= k < |front[g].files| ensures front[g].files[k].size == front[g].size {
          assert front[g] == gs[g];
        }
      }
      forall g | 0 <= g < |front| && |front[g].files| > 0 ensures front[g].files[0].id !in ids {
        assert front[g] == gs[g];
      }
      forall g, k | 0 <= g < |front| && 1 <= k < |front[g].files| ensures front[g].files[k].id in ids {
        assert front[g] == gs[g];
      }
      SavingsOfAllButFirst(front, ids);
      forall k | 1 <= k < |last.files| ensures last.files[k].id in ids {
        assert gs[|gs| - 1] == last;
      }
      SelectedInAllButFirst(last.files, ids);
      SumSizesAppend(SelectedFiles(front, ids), SelectedIn(last.files, ids));
      forall k | 0 <= k < |last.files| ensures last.files[k].size == last.size {
        assert gs[|gs| - 1] == last;
      }
      SavingsFromMembers(last);
    }
  }

  /**
    After `selectAllDuplicates` from an empty selection, `selectedSavings`
    is `totalPotentialSavings`, when every member has its group's size and
    no id appears twice.
   */
  lemma SelectAllSavesPotential(gs: seq<DuplicateGroup>)
    requires Uniform(gs) && UniqueIds(gs)
    ensures SumSizes(SelectedFiles(gs, {} + NonFirstIds(gs))) == SumSavings(gs)
  {
    var ids := {} + NonFirstIds(gs);
    forall g | 0 <= g < |gs| && |gs[g].files| > 0 ensures gs[g].files[0].id !in ids {
      if gs[g].files[0].id in ids {
        var g', k := NonFirstIdsFrom(gs, gs[g].files[0].id);
        assert false;
      }
    }
    forall g, k | 0 <= g < |gs| && 1 <= k < |gs[g].files| ensures gs[g].files[k].id in ids {
      NonFirstIdsHas(gs, g, k);
    }
    SavingsOfAllButFirst(gs, ids);
  }

  // ---------------------------------------------------------------------
  // Trashing

  /** `FileOperationError`, with the `partialFailure` case the view model matches. */
  datatype FileOperationError =
    | FileNotFound(url: Url)
    | PermissionDenied(url: Url)
    | TrashFailed(url: Url, message: string)      // the underlying error's `localizedDescription`
    | DeletionFailed(url: Url, message: string)
    | PartialFailure(count: int, bytes: int, errors: seq<FileOperationError>)

  /** What `moveToTrash` does: it returns the bytes freed, throws one of its errors, or throws another error. */
  datatype TrashOutcome = Moved(bytesFreed: int) | Threw(error: FileOperationError) | ThrewOther(message: string)

  /** `convertToFailedFile`; a nested partial failure becomes a placeholder at the root URL. */
  function ConvertToFailedFile(e: FileOperationError): (f: T.FailedFile)
    ensures !e.PartialFailure? ==> f.url == e.url
    ensures f.reason == T.NotFound <==> e.FileNotFound?
    ensures f.reason == T.PermissionDenied <==> e.PermissionDenied?
    ensures e.TrashFailed? || e.DeletionFailed? ==> f.reason == T.Unknown(e.message)
    ensures e.PartialFailure? ==> f == T.FailedFile(Url([]), T.Unknown("Partial failure"))
  {
    match e
    case FileNotFound(u) => T.FailedFile(u, T.NotFound)
    case PermissionDenied(u) => T.FailedFile(u, T.PermissionDenied)
    case TrashFailed(u, m) => T.FailedFile(u, T.Unknown(m))
    case DeletionFailed(u, m) => T.FailedFile(u, T.Unknown(m))
    case PartialFailure(_, _, _) => T.FailedFile(Url([]), T.Unknown("Partial failure"))
  }

  /** The result `trashSelectedFiles` reports for `files` when the trash operation ends in `outcome`. */
  function TrashResultOf(outcome: TrashOutcome, files: seq<ScannedFile>): T.TrashResult
  {
    match outcome
    case Moved(bytes) => T.TrashResult(|files|, bytes, [])
    case Threw(PartialFailure(count, bytes, errors)) =>
      T.TrashResult(count, bytes, seq(|errors|, k requires 0 <= k < |errors| => ConvertToFailedFile(errors[k])))
    case Threw(e) => T.TrashResult(0, 0, [ConvertToFailedFile(e)])
    case ThrewOther(m) => T.TrashResult(0, 0, seq(|files|, k requires 0 <= k < |files| => T.FailedFile(files[k].url, T.Unknown(m))))
  }

  /** The URLs of the failed files: `Set(failedFiles.map { $0.url })`. */
  function FailedUrls(failed: seq<T.FailedFile>): set<Url>
  {
    set k | 0 <= k < |failed| :: failed[k].url
  }

  /**
    How the outcome of the trash operation becomes the reported result, for
    a non-empty list of files: success trashes them all; one of the
    operation's own errors fails its one file; a partial failure is passed
    through; any other error fails every file.
   */
  lemma TrashOutcomes(outcome: TrashOutcome, files: seq<ScannedFile>)
    requires |files| > 0
    ensures outcome.Moved? ==> TrashResultOf(outcome, files).WasCompleteSuccess() &&
                               TrashResultOf(outcome, files).bytesFreed == outcome.bytesFreed
    ensures outcome.Threw? && !outcome.error.PartialFailure? ==>
              TrashResultOf(outcome, files).WasCompleteFailure() &&
              FailedUrls(TrashResultOf(outcome, files).failedFiles) == {outcome.error.url}
    ensures outcome.Threw? && outcome.error.PartialFailure? ==>
              TrashResultOf(outcome, files).trashedCount == outcome.error.count &&
              TrashResultOf(outcome, files).bytesFreed == outcome.error.bytes &&
              |TrashResultOf(outcome, files).failedFiles| == |outcome.error.errors|
    ensures outcome.ThrewOther? ==>
              TrashResultOf(outcome, files).WasCompleteFailure() &&
              forall k :: 0 <= k < |files| ==> files[k].url in FailedUrls(TrashResultOf(outcome, files).failedFiles)
  {
    var r := TrashResultOf(outcome, files);
    if outcome.Threw? && !outcome.error.PartialFailure? {
      assert r.failedFiles == [ConvertToFailedFile(outcome.error)];
      assert r.failedFiles[0].url == outcome.error.url;
    }
    if outcome.ThrewOther? {
      forall k | 0 <= k < |files| ensures files[k].url in FailedUrls(r.failedFiles) {
        assert r.failedFiles[k].url == files[k].url;
      }
    }
  }

  /** `trashedIds`: the ids of the files whose URL did not fail, in order. */
  function TrashedIds(files: seq<ScannedFile>, failedUrls: set<Url>): seq<Uuid>
  {
    if |files| == 0 then []
    else
      var last := files[|files| - 1];
      TrashedIds(files[..|files| - 1], failedUrls) + (if last.url in failedUrls then [] else [last.id])
  }

  lemma {:induction false} TrashedIdsMembers(files: seq<ScannedFile>, failedUrls: set<Url>, id: Uuid)
    ensures id in TrashedIds(files, failedUrls) <==> exists f :: f in files && f.id == id && f.url !in failedUrls
    decreases |files|
  {
    if |files| > 0 {
      var front := files[..|files| - 1];
      TrashedIdsMembers(front, failedUrls, id);
      assert files == front + [files[|files| - 1]];
    }
  }

  /** `files.removeAll { trashedIds.contains($0.id) }` */
  function Remaining(fs: seq<ScannedFile>, trashed: seq<Uuid>): (r: seq<ScannedFile>)
    ensures forall f :: f in r <==> f in fs && f.id !in trashed
  {
    if |fs| == 0 then []
    else (if fs[0].id in trashed then [] else [fs[0]]) + Remaining(fs[1..], trashed)
  }

  /** Every group with its trashed members removed, in place. */
  function Stripped(gs: seq<DuplicateGroup>, trashed: seq<Uuid>): (r: seq<DuplicateGroup>)
    ensures |r| == |gs|
  {
    seq(|gs|, k requires 0 <= k < |gs| => gs[k].(files := Remaining(gs[k].files, trashed)))
  }

  /** `removeAll { $0.files.count < 2 }` */
  function Surviving(gs: seq<DuplicateGroup>): (r: seq<DuplicateGroup>)
    ensures forall g :: g in r <==> g in gs && |g.files| >= 2
  {
    if |gs| == 0 then []
    else (if |gs[0].files| < 2 then [] else [gs[0]]) + Surviving(gs[1..])
  }

  /** The groups `trashSelectedFiles` leaves: stripped of the trashed members, and only those still duplicated. */
  function AfterTrash(gs: seq<DuplicateGroup>, trashed: seq<Uuid>): seq<DuplicateGroup>
  {
    Surviving(Stripped(gs, trashed))
  }

  /**
    After trashing, every group still has two or more members, and a file is
    still listed iff it was a member of a group, was not trashed, and its
    group kept two or more members.
   */
  lemma AfterTrashMembers(gs: seq<DuplicateGroup>, trashed: seq<Uuid>, f: ScannedFile)
    ensures forall g :: g in AfterTrash(gs, trashed) ==> |g.files| >= 2
    ensures (exists g :: g in AfterTrash(gs, trashed) && f in g.files) <==>
            exists k :: 0 <= k < |gs| && f in gs[k].files && f.id !in trashed && |Remaining(gs[k].files, trashed)| >= 2
  {
    var st := Stripped(gs, trashed);
    var after := Surviving(st);
    if exists g :: g in after && f in g.files {
      var g :| g in after && f in g.files;
      assert g in st;
      var k :| 0 <= k < |st| && st[k] == g;
      assert g.files == Remaining(gs[k].files, trashed);
    }
    if exists k :: 0 <= k < |gs| && f in gs[k].files && f.id !in trashed && |Remaining(gs[k].files, trashed)| >= 2 {
      var k :| 0 <= k < |gs| && f in gs[k].files && f.id !in trashed && |Remaining(gs[k].files, trashed)| >= 2;
      var g := st[k];
      assert g.files == Remaining(gs[k].files, trashed);
      assert g in after;
    }
  }

  /**
    The ids taken out of the groups are exactly those of the selected
    members whose URL is not among the failed files.
   */
  lemma TrashedAreSelectedAndNotFailed(gs: seq<DuplicateGroup>, ids: set<Uuid>, failed: seq<T.FailedFile>, id: Uuid)
    ensures id in TrashedIds(SelectedFiles(gs, ids), FailedUrls(failed)) <==>
            id in ids && exists g, f :: 0 <= g < |gs| && f in gs[g].files && f.id == id && f.url !in FailedUrls(failed)
  {
    var files := SelectedFiles(gs, ids);
    TrashedIdsMembers(files, FailedUrls(failed), id);
    if exists f :: f in files && f.id == id && f.url !in FailedUrls(failed) {
      var f :| f in files && f.id == id && f.url !in FailedUrls(failed);
      SelectedFilesMembers(gs, ids, f);
    }
    if id in ids && exists g, f :: 0 <= g < |gs| && f in gs[g].files && f.id == id && f.url !in FailedUrls(failed) {
      var g, f :| 0 <= g < |gs| && f in gs[g].files && f.id == id && f.url !in FailedUrls(failed);
      SelectedFilesMembers(gs, ids, f);
    }
  }

  // ---------------------------------------------------------------------
  // Scanning

  /** What scanning the `i`-th selected folder returns or throws. */
  function FolderOutcome(filters: FileFilters, folders: seq<Url>, rootOf: Url -> S.Root, newIds: nat -> nat -> Uuid,
                         cancels: nat -> Option<nat>, i: nat): Result<seq<ScannedFile>, S.ScanError>
    requires i < |folders|
  {
    S.ScanOutcome(filters, folders[i], rootOf(folders[i]), newIds(i), cancels(i))
  }

  /** `for folder in selectedFolders { allFiles.append(contentsOf: try scanDirectory(...)) }` */
  function ScanFolders(filters: FileFilters, folders: seq<Url>, rootOf: Url -> S.Root, newIds: nat -> nat -> Uuid,
                       cancels: nat -> Option<nat>): Result<seq<ScannedFile>, S.ScanError>
    decreases |folders|
  {
    if |folders| == 0 then Success([])
    else
      var n := |folders| - 1;
      match ScanFolders(filters, folders[..n], rootOf, newIds, cancels)
      case Failure(e) => Failure(e)
      case Success(files) =>
        match FolderOutcome(filters, folders, rootOf, newIds, cancels, n)
        case Failure(e) => Failure(e)
        case Success(more) => Success(files + more)
  }

  /** Extending the folders keeps a failure of the first ones. */
  lemma {:induction false} ScanFoldersFailureStays(filters: FileFilters, folders: seq<Url>, m: nat, rootOf: Url -> S.Root,
                                                   newIds: nat -> nat -> Uuid, cancels: nat -> Option<nat>)
    requires m <= |folders| && ScanFolders(filters, folders[..m], rootOf, newIds, cancels).Failure?
    ensures ScanFolders(filters, folders, rootOf, newIds, cancels) == ScanFolders(filters, folders[..m], rootOf, newIds, cancels)
    decreases |folders|
  {
    if m < |folders| {
      var n := |folders| - 1;
      assert folders[..n][..m] == folders[..m];
      ScanFoldersFailureStays(filters, folders[..n], m, rootOf, newIds, cancels);
    } else {
      assert folders[..m] == folders;
    }
  }

  /**
    The scan of the folders succeeds iff every folder's scan does; it fails
    with the error of the first folder whose scan fails.
   */
  lemma {:induction false} ScanFoldersFirstFailure(filters: FileFilters, folders: seq<Url>, rootOf: Url -> S.Root,
                                                   newIds: nat -> nat -> Uuid, cancels: nat -> Option<nat>)
    ensures ScanFolders(filters, folders, rootOf, newIds, cancels).Success? <==>
            forall i :: 0 <= i < |folders| ==> FolderOutcome(filters, folders, rootOf, newIds, cancels, i).Success?
    ensures ScanFolders(filters, folders, rootOf, newIds, cancels).Failure? ==>
            exists i :: 0 <= i < |folders| &&
              FolderOutcome(filters, folders, rootOf, newIds, cancels, i) == Failure(ScanFolders(filters, folders, rootOf, newIds, cancels).error) &&
              forall j :: 0 <= j < i ==> FolderOutcome(filters, folders, rootOf, newIds, cancels, j).Success?
    decreases |folders|
  {
    if |folders| > 0 {
      var n := |folders| - 1;
      var front := folders[..n];
      ScanFoldersFirstFailure(filters, front, rootOf, newIds, cancels);
      forall i | 0 <= i < n
        ensures FolderOutcome(filters, front, rootOf, newIds, cancels, i) == FolderOutcome(filters, folders, rootOf, newIds, cancels, i)
      {
        assert front[i] == folders[i];
      }
    }
  }

  /** A scan error's state: cancelling returns to idle, anything else is an error with the path. */
  function ScanErrorState(e: S.ScanError): (s: AppState)
    ensures s == Idle <==> e.Cancelled?
    ensures !e.Cancelled? ==> s.Error?
  {
    match e
    case Cancelled => Idle
    case DirectoryNotFound(url) => Error("Directory not found: " + PathString(url))
    case AccessDenied(url) => Error("Access denied: " + PathString(url))
  }

  /** A scan error's progress: cancelled, or failed with a short reason. */
  function ScanErrorProgress(e: S.ScanError): (p: P.ScanProgress)
    ensures p.phase == P.Cancelled <==> e.Cancelled?
    ensures p.phase == P.Failed <==> !e.Cancelled?
    ensures !p.IsActive()
  {
    match e
    case Cancelled => P.ScanProgress(phase := P.Cancelled)
    case DirectoryNotFound(_) => P.ScanProgress(phase := P.Failed, error := Some("Directory not found"))
    case AccessDenied(_) => P.ScanProgress(phase := P.Failed, error := Some("Access denied"))
  }

  /** A hash error's state. */
  function HashErrorState(e: H.HashError): (s: AppState)
    ensures s == Idle <==> e.Cancelled?
    ensures !e.Cancelled? ==> s.Error?
  {
    match e
    case Cancelled => Idle
    case FileNotFound(url) => Error("File not found: " + PathString(url))
    case ReadError(url, message) => Error("Error reading " + LastPathComponent(url) + ": " + message)
  }

  /** A hash error's progress. */
  function HashErrorProgress(e: H.HashError): (p: P.ScanProgress)
    ensures p.phase == P.Cancelled <==> e.Cancelled?
    ensures p.phase == P.Failed <==> !e.Cancelled?
    ensures !p.IsActive()
  {
    match e
    case Cancelled => P.ScanProgress(phase := P.Cancelled)
    case FileNotFound(_) => P.ScanProgress(phase := P.Failed, error := Some("File not found"))
    case ReadError(_, _) => P.ScanProgress(phase := P.Failed, error := Some("Read error"))
  }

  /** The environment of the detector `startScan` creates: the default hasher and threshold over `fs`. */
  function DetectorEnv(fs: H.FileSystem, digest: H.Bytes -> Hex.U64): (e: D.Env)
    ensures e.config.maxConcurrentOperations > 0
  {
    D.Env(fs, H.HasherConfig(), digest, 8192)
  }

  // ---------------------------------------------------------------------
  // The view model

  /**
    `ScanViewModel`. `digest` is the content hash the fresh hashers use; the
    file operation service is not part of this model (each call to
    `trashSelectedFiles` receives its outcome).
   */
  class ScanViewModel {
    var appState: AppState
    var selectedFolders: seq<Url>
    var scanProgress: P.ScanProgress
    var duplicateGroups: seq<DuplicateGroup>
    var selectedFileIds: set<Uuid>
    var scannedFiles: seq<ScannedFile>
    var scanner: S.FileScannerService
    var detector: D.DuplicateDetectorService
    var lastTrashResult: Option<T.TrashResult>
    var showTrashResult: bool
    const digest: H.Bytes -> Hex.U64

    /** `init(scannerService:duplicateDetectorService:fileOperationService:)` */
    constructor(scanner: S.FileScannerService, detector: D.DuplicateDetectorService, digest: H.Bytes -> Hex.U64)
      ensures this.scanner == scanner && this.detector == detector && this.digest == digest
      ensures appState == Idle && selectedFolders == [] && scanProgress == P.IdleProgress()
      ensures duplicateGroups == [] && selectedFileIds == {} && scannedFiles == []
      ensures lastTrashResult == None && !showTrashResult
    {
      appState := Idle;
      selectedFolders := [];
      scanProgress := P.IdleProgress();
      duplicateGroups := [];
      selectedFileIds := {};
      scannedFiles := [];
      this.scanner := scanner;
      this.detector := detector;
      lastTrashResult := None;
      showTrashResult := false;
      this.digest := digest;
    }

    /** `canStartScan` */
    predicate CanStartScan()
      reads this
    {
      |selectedFolders| > 0 && appState != Scanning
    }

    /** `selectedFilesCount` */
    function SelectedFilesCount(): nat
      reads this
    {
      |selectedFileIds|
    }

    /** `totalPotentialSavings` */
    function TotalPotentialSavings(): nat
      reads this
    {
      SumSavings(duplicateGroups)
    }

    /** `totalDuplicateFiles` */
    function TotalDuplicateFiles(): nat
      reads this
    {
      SumCounts(duplicateGroups)
    }

    /** `totalDuplicateGroups` */
    function TotalDuplicateGroups(): nat
      reads this
    {
      |duplicateGroups|
    }

    /** `isFileSelected(_:)` */
    function IsFileSelected(id: Uuid): bool
      reads this
    {
      id in selectedFileIds
    }

    /** `selectedSavings`: the sizes of the selected members, counted once per group they appear in. */
    method SelectedSavings() returns (total: int)
      ensures total == SumSizes(SelectedFiles(duplicateGroups, selectedFileIds))
    {
      var groups, ids := duplicateGroups, selectedFileIds;
      total := 0;
      var g := 0;
      while g < |groups|
        invariant 0 <= g <= |groups|
        invariant total == SumSizes(SelectedFiles(groups[..g], ids))
      {
        var files := groups[g].files;
        var subtotal := 0;
        var k := 0;
        while k < |files|
          invariant 0 <= k <= |files|
          invariant subtotal == SumSizes(SelectedIn(files[..k], ids))
        {
          SelectedInSizeStep(files, ids, k);
          if files[k].id in ids {
            subtotal := subtotal + files[k].size;
          }
          k := k + 1;
        }
        assert files[..k] == files;
        SelectedFilesSizeStep(groups, ids, g);
        total := total + subtotal;
        g := g + 1;
      }
      assert groups[..g] == groups;
    }

    /** `addFolder(_:)` */
    method AddFolder(url: Url)
      modifies this`selectedFolders
      ensures selectedFolders == WithFolder(old(selectedFolders), url)
    {
      if url in selectedFolders {
        return;
      }
      selectedFolders := selectedFolders + [url];
    }

    /** `removeFolder(_:)` */
    method RemoveFolder(url: Url)
      modifies this`selectedFolders
      ensures selectedFolders == WithoutFolder(old(selectedFolders), url)
    {
      selectedFolders := WithoutFolder(selectedFolders, url);
    }

    /** `clearFolders()` */
    method ClearFolders()
      modifies this`selectedFolders
      ensures selectedFolders == []
    {
      selectedFolders := [];
    }

    /** `toggleFileSelection(_:)` */
    method ToggleFileSelection(id: Uuid)
      modifies this`selectedFileIds
      ensures selectedFileIds == Toggled(old(selectedFileIds), id)
      ensures IsFileSelected(id) == !old(IsFileSelected(id))
      ensures SelectedFilesCount() == if old(IsFileSelected(id)) then old(SelectedFilesCount()) - 1 else old(SelectedFilesCount()) + 1
    {
      ToggleCount(selectedFileIds, id);
      if id in selectedFileIds {
        selectedFileIds := selectedFileIds - {id};
      } else {
        selectedFileIds := selectedFileIds + {id};
      }
    }

    /** `selectAllDuplicates()`: keeps the first member of each group, selects the rest. */
    method SelectAllDuplicates()
      modifies this`selectedFileIds
      ensures selectedFileIds == old(selectedFileIds) + NonFirstIds(duplicateGroups)
    {
      var g := 0;
      while g < |duplicateGroups|
        invariant 0 <= g <= |duplicateGroups|
        invariant selectedFileIds == old(selectedFileIds) + NonFirstIds(duplicateGroups[..g])
      {
        var rest := DropFirst(duplicateGroups[g].files);
        selectedFileIds := InsertIds(selectedFileIds, rest);
        assert duplicateGroups[..g + 1][..g] == duplicateGroups[..g];
        assert NonFirstIds(duplicateGroups[..g + 1]) == NonFirstIds(duplicateGroups[..g]) + IdsOf(rest);
        g := g + 1;
      }
      assert duplicateGroups[..g] == duplicateGroups;
    }

    /** The inner loop of `selectAllDuplicates()`: `insert` the id of every file of `rest`. */
    static method InsertIds(ids: set<Uuid>, rest: seq<ScannedFile>) returns (r: set<Uuid>)
      ensures r == ids + IdsOf(rest)
    {
      r := ids;
      var k := 0;
      while k < |rest|
        invariant 0 <= k <= |rest|
        invariant r == ids + IdsOf(rest[..k])
      {
        assert rest[..k + 1][..k] == rest[..k];
        r := r + {rest[k].id};
        k := k + 1;
      }
      assert rest[..k] == rest;
    }

    /** `deselectAll()` */
    method DeselectAll()
      modifies this`selectedFileIds
      ensures selectedFileIds == {}
    {
      selectedFileIds := {};
    }

    /**
      The folder loop of `startScan(...)`, on the fresh scanner: each folder's
      root is `rootOf(folder)`, the `i`-th folder's files receive the
      identifiers `newIds(i)` and its scan is cancelled at its yield
      `cancels(i)`, if at all.
     */
    method ScanSelectedFolders(rootOf: Url -> S.Root, newIds: nat -> nat -> Uuid, cancels: nat -> Option<nat>, now: Date)
      returns (r: Result<seq<ScannedFile>, S.ScanError>)
      modifies scanner
      ensures r == ScanFolders(scanner.filters, selectedFolders, rootOf, newIds, cancels)
    {
      var allFiles: seq<ScannedFile> := [];
      var i := 0;
      while i < |selectedFolders|
        invariant 0 <= i <= |selectedFolders|
        invariant ScanFolders(scanner.filters, selectedFolders[..i], rootOf, newIds, cancels) == Success(allFiles)
      {
        var folder := selectedFolders[i];
        var files, events := scanner.ScanDirectory(folder, rootOf(folder), newIds(i), cancels(i), now);
        assert files == FolderOutcome(scanner.filters, selectedFolders, rootOf, newIds, cancels, i);
        assert selectedFolders[..i + 1][..i] == selectedFolders[..i];
        assert FolderOutcome(scanner.filters, selectedFolders[..i + 1], rootOf, newIds, cancels, i) == files;
        if files.Failure? {
          ScanFoldersFailureStays(scanner.filters, selectedFolders, i + 1, rootOf, newIds, cancels);
          return Failure(files.error);
        }
        allFiles := allFiles + files.value;
        i := i + 1;
      }
      assert selectedFolders[..i] == selectedFolders;
      return Success(allFiles);
    }

    /**
      `startScan()`. `fs` is the file system the hashes read, `detectCancel`
      where another task's `cancel()` reaches the detector, if at all; the
      progress callbacks' updates land in order, so `scanProgress` ends as
      the last one. `scanned`, `detected`, `events` and `trace` are what the
      scans and the detector produced.
     */
    method StartScan(rootOf: Url -> S.Root, newIds: nat -> nat -> Uuid, cancels: nat -> Option<nat>,
                     fs: H.FileSystem, detectCancel: Option<D.CancelPoint>, now: Date)
      returns (ghost started: bool, ghost scanned: Result<seq<ScannedFile>, S.ScanError>,
               ghost detected: Result<D.DetectionResult, H.HashError>, ghost events: seq<P.ScanProgress>, ghost trace: D.Trace)
      modifies this`appState, this`scanProgress, this`duplicateGroups, this`selectedFileIds, this`scannedFiles,
               this`scanner, this`detector
      ensures started == old(CanStartScan())
      ensures !started ==> unchanged(this)
      ensures started ==>
                selectedFileIds == {} && scanned == ScanFolders(DefaultFilters(), selectedFolders, rootOf, newIds, cancels)
      ensures started && scanned.Failure? ==>
                appState == ScanErrorState(scanned.error) && scanProgress == ScanErrorProgress(scanned.error) &&
                scannedFiles == [] && duplicateGroups == []
      ensures started && scanned.Success? ==>
                scannedFiles == scanned.value &&
                D.Reported(scanned.value, DetectorEnv(fs, digest), detectCancel, now, detected, events, trace)
      ensures started && scanned.Success? && detected.Failure? ==>
                appState == HashErrorState(detected.error) && scanProgress == HashErrorProgress(detected.error) &&
                duplicateGroups == []
      ensures started && scanned.Success? && detected.Success? ==>
                appState == Results && duplicateGroups == detected.value.duplicateGroups &&
                |events| > 0 && scanProgress == events[|events| - 1]
    {
      scanned, detected, events, trace := Success([]), Success(D.DetectionResult([], [])), [], D.EmptyTrace();
      var canStart := CanStartScan();
      started := canStart;
      if !canStart {
        return;
      }
      duplicateGroups := [];
      selectedFileIds := {};
      var allFiles := ScanPhase(rootOf, newIds, cancels, now);
      scanned := allFiles;
      if allFiles.Failure? {
        return;
      }
      detected, events, trace := DetectDuplicates(fs, detectCancel, now);
    }

    /**
      The scanning step of `startScan()`: the state it shows while scanning,
      the folder loop on a fresh scanner, and the state a scan error leaves.
     */
    method ScanPhase(rootOf: Url -> S.Root, newIds: nat -> nat -> Uuid, cancels: nat -> Option<nat>, now: Date)
      returns (r: Result<seq<ScannedFile>, S.ScanError>)
      modifies this`appState, this`scanProgress, this`scannedFiles, this`scanner
      ensures r == ScanFolders(DefaultFilters(), selectedFolders, rootOf, newIds, cancels)
      ensures r.Failure? ==> appState == ScanErrorState(r.error) && scanProgress == ScanErrorProgress(r.error) && scannedFiles == []
      ensures r.Success? ==> scannedFiles == r.value
    {
      scannedFiles := [];
      appState := Scanning;
      scanProgress := P.ScanProgress(phase := P.Enumerating, startTime := Some(now));
      scanner := new S.FileScannerService(DefaultFilters());
      r := ScanSelectedFolders(rootOf, newIds, cancels, now);
      if r.Failure? {
        appState := ScanErrorState(r.error);
        scanProgress := ScanErrorProgress(r.error);
        return;
      }
      scannedFiles := r.value;
    }

    /**
      The detection step of `startScan()`, on a fresh detector over a fresh
      hasher, and the state it leaves.
     */
    method DetectDuplicates(fs: H.FileSystem, detectCancel: Option<D.CancelPoint>, now: Date)
      returns (ghost detected: Result<D.DetectionResult, H.HashError>, ghost events: seq<P.ScanProgress>, ghost trace: D.Trace)
      modifies this`detector, this`appState, this`scanProgress, this`duplicateGroups
      ensures D.Reported(scannedFiles, DetectorEnv(fs, digest), detectCancel, now, detected, events, trace)
      ensures detected.Failure? ==>
                appState == HashErrorState(detected.error) && scanProgress == HashErrorProgress(detected.error) &&
                duplicateGroups == old(duplicateGroups)
      ensures detected.Success? ==>
                appState == Results && duplicateGroups == detected.value.duplicateGroups &&
                |events| > 0 && scanProgress == events[|events| - 1]
    {
      var result, progress;
      detector, result, progress, trace := RunDetector(scannedFiles, fs, digest, detectCancel, now);
      detected, events := result, progress;
      if result.Failure? {
        appState := HashErrorState(result.error);
        scanProgress := HashErrorProgress(result.error);
        return;
      }
      duplicateGroups := result.value.duplicateGroups;
      scanProgress := progress[|progress| - 1];
      appState := Results;
    }

    /** `findDuplicates(in:)` on a fresh detector, with the source's default threshold, over a fresh hasher. */
    static method RunDetector(files: seq<ScannedFile>, fs: H.FileSystem, digest: H.Bytes -> Hex.U64,
                              cancelAt: Option<D.CancelPoint>, now: Date)
      returns (detector: D.DuplicateDetectorService, r: Result<D.DetectionResult, H.HashError>,
               progress: seq<P.ScanProgress>, ghost trace: D.Trace)
      ensures fresh(detector)
      ensures D.Reported(files, DetectorEnv(fs, digest), cancelAt, now, r, progress, trace)
    {
      var hasher := new H.FileHasherService(digest, H.HasherConfig());
      detector := new D.DuplicateDetectorService(hasher, 8192);
      assert detector.EnvFor(fs) == DetectorEnv(fs, digest);
      r, progress, trace := detector.FindDuplicates(files, fs, cancelAt, now);
    }

    /** `cancelScan()`: the `Task` it starts cancels the scanner and the detector. */
    method CancelScan()
      modifies this`appState, this`scanProgress, scanner, detector, detector.hasher
      ensures appState == Idle && scanProgress == P.ScanProgress(phase := P.Cancelled)
      ensures scanner.isCancelled && detector.isCancelled && detector.hasher.isCancelled
    {
      scanner.CancelScan();
      detector.Cancel();
      appState := Idle;
      scanProgress := P.ScanProgress(phase := P.Cancelled);
    }

    /** `resetToIdle()`: the folders stay selected. */
    method ResetToIdle()
      modifies this`appState, this`duplicateGroups, this`selectedFileIds, this`scannedFiles, this`scanProgress
      ensures appState == Idle && duplicateGroups == [] && selectedFileIds == {} && scannedFiles == []
      ensures scanProgress == P.IdleProgress()
    {
      appState := Idle;
      duplicateGroups := [];
      selectedFileIds := {};
      scannedFiles := [];
      scanProgress := P.IdleProgress();
    }

    /** The loop of `trashSelectedFiles` that collects the selected members. */
    method CollectSelected() returns (filesToTrash: seq<ScannedFile>)
      ensures filesToTrash == SelectedFiles(duplicateGroups, selectedFileIds)
    {
      filesToTrash := [];
      var g := 0;
      while g < |duplicateGroups|
        invariant 0 <= g <= |duplicateGroups|
        invariant filesToTrash == SelectedFiles(duplicateGroups[..g], selectedFileIds)
      {
        var files := duplicateGroups[g].files;
        ghost var before := filesToTrash;
        var k := 0;
        while k < |files|
          invariant 0 <= k <= |files|
          invariant filesToTrash == before + SelectedIn(files[..k], selectedFileIds)
        {
          SelectedInSnoc(files, selectedFileIds, k);
          if files[k].id in selectedFileIds {
            filesToTrash := filesToTrash + [files[k]];
          }
          k := k + 1;
        }
        assert files[..k] == files;
        assert duplicateGroups[..g + 1][..g] == duplicateGroups[..g];
        g := g + 1;
      }
      assert duplicateGroups[..g] == duplicateGroups;
    }

    /**
      `trashSelectedFiles()`, when the trash operation on the collected files
      ends in `outcome`.
     */
    method TrashSelectedFiles(outcome: TrashOutcome) returns (result: T.TrashResult)
      modifies this`duplicateGroups, this`selectedFileIds, this`lastTrashResult, this`showTrashResult
      ensures old(selectedFileIds) == {} || SelectedFiles(old(duplicateGroups), old(selectedFileIds)) == [] ==>
                result == T.TrashResult(0, 0, []) && unchanged(this)
      ensures old(selectedFileIds) != {} && SelectedFiles(old(duplicateGroups), old(selectedFileIds)) != [] ==>
                result == TrashResultOf(outcome, SelectedFiles(old(duplicateGroups), old(selectedFileIds))) &&
                duplicateGroups == AfterTrash(old(duplicateGroups),
                                              TrashedIds(SelectedFiles(old(duplicateGroups), old(selectedFileIds)),
                                                         FailedUrls(result.failedFiles))) &&
                selectedFileIds == {} && lastTrashResult == Some(result) && showTrashResult
    {
      if selectedFileIds == {} {
        return T.TrashResult(0, 0, []);
      }
      var filesToTrash := CollectSelected();
      if filesToTrash == [] {
        return T.TrashResult(0, 0, []);
      }
      var trashedCount, bytesFreed, failedFiles := MoveToTrash(outcome, filesToTrash);
      var failedURLs := FailedUrls(failedFiles);
      var trashedIds := TrashedIds(filesToTrash, failedURLs);
      RemoveTrashed(trashedIds);
      duplicateGroups := Surviving(duplicateGroups);
      selectedFileIds := {};
      result := T.TrashResult(trashedCount, bytesFreed, failedFiles);
      lastTrashResult := Some(result);
      showTrashResult := true;
    }

    /** The `do`/`catch` of `trashSelectedFiles()`: what it records for each outcome of the trash operation. */
    static method MoveToTrash(outcome: TrashOutcome, filesToTrash: seq<ScannedFile>)
      returns (trashedCount: int, bytesFreed: int, failedFiles: seq<T.FailedFile>)
      ensures T.TrashResult(trashedCount, bytesFreed, failedFiles) == TrashResultOf(outcome, filesToTrash)
    {
      trashedCount := 0;
      bytesFreed := 0;
      failedFiles := [];
      match outcome {
        case Moved(bytes) =>
          bytesFreed := bytes;
          trashedCount := |filesToTrash|;
        case Threw(error) =>
          match error {
            case PartialFailure(count, bytes, errors) =>
              trashedCount := count;
              bytesFreed := bytes;
              failedFiles := seq(|errors|, k requires 0 <= k < |errors| => ConvertToFailedFile(errors[k]));
            case FileNotFound(url) =>
              failedFiles := [T.FailedFile(url, T.NotFound)];
            case PermissionDenied(url) =>
              failedFiles := [T.FailedFile(url, T.PermissionDenied)];
            case TrashFailed(url, message) =>
              failedFiles := [T.FailedFile(url, T.Unknown(message))];
            case DeletionFailed(url, message) =>
              failedFiles := [T.FailedFile(url, T.Unknown(message))];
          }
        case ThrewOther(message) =>
          failedFiles := seq(|filesToTrash|, k requires 0 <= k < |filesToTrash| => T.FailedFile(filesToTrash[k].url, T.Unknown(message)));
      }
    }

    /** `duplicateGroups[i].files.removeAll { trashedIds.contains($0.id) }` for every group. */
    method RemoveTrashed(trashedIds: seq<Uuid>)
      modifies this`duplicateGroups
      ensures duplicateGroups == Stripped(old(duplicateGroups), trashedIds)
    {
      ghost var before := duplicateGroups;
      var i := 0;
      while i < |duplicateGroups|
        invariant 0 <= i <= |duplicateGroups| == |before|
        invariant forall k :: 0 <= k < i ==> duplicateGroups[k] == before[k].(files := Remaining(before[k].files, trashedIds))
        invariant forall k :: i <= k < |before| ==> duplicateGroups[k] == before[k]
      {
        duplicateGroups := duplicateGroups[i := duplicateGroups[i].(files := Remaining(duplicateGroups[i].files, trashedIds))];
        i := i + 1;
      }
      assert duplicateGroups == Stripped(before, trashedIds);
    }
  }
}
