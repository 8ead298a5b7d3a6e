# Duplicate product image removal, modelled in Dafny

This project models the decision core of the Magento 2 console command
`duplicate:remove` (class `RemoveDuplicate`). For each product, the command
walks the media gallery in order and compares file contents by MD5 digest.
An entry whose content was already seen is removed, unless it carries an
image role. The removed files are collected, the product is saved, and the
collected files are deleted, each step gated by the `dryrun` and `unlink`
options.

Files:

- `mediagallery.dfy` (module `MediaGallery`): gallery entries, pinned entries
  (at least one role), and the storage as four opaque functions of a full
  path (`isExists`, `md5`, `isFile`, `deleteFails`). It also holds the path
  `<media root>/catalog/product<file>`, the storage as seen after a set of
  files is deleted (`Gone`), and the class `FileDriver`, whose `DeleteFile`
  adds a path to the set of deleted files unless the deletion fails.
- `scan.dfy` (module `DuplicateScan`): the per-product loop as pure functions.
  - `Step` is one iteration and `Plan` folds it over the gallery.
  - An independent declarative reference says which positions are
    `Redundant`: compared, unpinned, and carrying a digest that is the base
    image's or an earlier compared entry's.
  - `Survivors` and `CollectedPaths` collect what the reference keeps and drops.
- `scan_properties.dfy` (module `ScanProperties`): the loop agrees with the
  reference. From that follow first occurrence wins, pinned and skipped
  entries stay, no content is lost, distinct contents change nothing, and a
  second run removes nothing.
- `command.dfy` (module `RemoveDuplicateCommand`): the command around the
  scan.
  - Option parsing, and the gate for save, delete and the "Deleted file" line.
  - The gallery loop as the method `ScanGallery`, proved equal to `Plan`.
  - The deletion loop as the method `DeleteCollected`, proved equal to
    `CleanupTrace`. It deletes through the `FileDriver`, so a path collected
    twice is not a regular file any more the second time.
  - One product (`ProcessProduct`) and the whole run (`ProcessProducts`,
    `Execute`), proved equal to `RunOutcomes`. Each product is processed on
    the storage as the earlier products left it.

Two points about how the code keeps its state:

- An existing file that cannot be read is not passed over. The digest
  `md5_file` returns for it (line 187) is compared and recorded like any
  other, so the model's `md5` is a total function and has no "unreadable"
  case.
- The seen digests are an array that grows by append (lines 167 and 201)
  and is searched with `in_array` (line 192). The model keeps a sequence
  and proves that each digest occurs in it at most once.

## Model

| member | source | states |
|---|---|---|
| `MediaGallery.ImagePath` | src/Console/RemoveDuplicate.php:184 | the full path is the media root, then `/catalog/product`, then the file reference (length, prefix and suffix) |
| `MediaGallery.ImagePathInjective` | src/Console/RemoveDuplicate.php:184 | under one media root, two file references give the same full path exactly when they are equal |
| `DuplicateScan.Seed` | src/Console/RemoveDuplicate.php:162-168 | before any entry, the seen digests are the base image's digest when its file exists, and empty otherwise |
| `DuplicateScan.Judge` | src/Console/RemoveDuplicate.php:180-202 | an entry is passed over exactly when it is the base image or its file is missing; removed exactly when compared, unpinned and already seen; kept as pinned exactly when compared, pinned and seen; recorded exactly when compared and unseen |
| `DuplicateScan.Step` | src/Console/RemoveDuplicate.php:179-202 | skipped entries are kept and change no other state; a pinned entry is kept and adds no path; a seen pinned entry leaves the seen digests alone; a seen unpinned entry is dropped, its path appended and `shouldSave` set; an unseen digest is appended and the entry kept |
| `ScanProperties.PrefixMatchesReference` | src/Console/RemoveDuplicate.php:179-203 | after any prefix of the gallery, the loop state agrees with the declarative reference: seen digests, retained entries, collected paths and `shouldSave` |
| `ScanProperties.PlanMatchesReference` | src/Console/RemoveDuplicate.php:162-203 | over the whole gallery: the seen digests are the reference's, each occurs once, the retained gallery is the gallery minus the redundant positions in original order, the collected paths are those of the redundant entries in order, and `shouldSave` holds exactly when a path was collected |
| `ScanProperties.NonRedundantKept` | src/Console/RemoveDuplicate.php:179-203 | an entry that is not redundant is in the retained gallery |
| `ScanProperties.RedundantListed` | src/Console/RemoveDuplicate.php:192-199 | a redundant entry's full path is collected and `shouldSave` is set |
| `ScanProperties.PinnedAndSkippedKept` | src/Console/RemoveDuplicate.php:180-195 | pinned entries, the base image's own entry and entries with a missing file always stay in the gallery |
| `ScanProperties.CollectedPathsAreRedundant` | src/Console/RemoveDuplicate.php:192-199 | every collected path belongs to a compared, unpinned entry whose content was already seen |
| `ScanProperties.PinnedFileNotCollected` | src/Console/RemoveDuplicate.php:193-197 | a pinned entry's file is never collected, unless an unpinned entry names the same file |
| `ScanProperties.SeenOnlyGrows` | src/Console/RemoveDuplicate.php:167-201 | the seen digests only ever grow by appending |
| `ScanProperties.BaseDuplicateRemoved` | src/Console/RemoveDuplicate.php:163-199 | when the base image file exists, its digest heads the seen digests at every position, so an unpinned entry under another name with the same content is removed and its path collected |
| `ScanProperties.LaterDuplicateRemoved` | src/Console/RemoveDuplicate.php:192-199 | of two compared entries with equal content, the later one is removed and collected unless it is pinned |
| `ScanProperties.FirstOccurrenceKept` | src/Console/RemoveDuplicate.php:200-202 | the first compared entry with a content the base image does not have is kept |
| `ScanProperties.KeptWitness` | src/Console/RemoveDuplicate.php:200-202 | a seen digest that is not the base image's was recorded by an earlier compared entry that is itself kept |
| `ScanProperties.RemovedContentRetained` | src/Console/RemoveDuplicate.php:192-202 | no content is lost: a removed entry's content is the base image's, or that of an earlier entry that stays in the gallery |
| `ScanProperties.DistinctDigestsKeepAll` | src/Console/RemoveDuplicate.php:179-203 | when all compared contents differ from each other and from the base image, the gallery is unchanged, nothing is collected and `shouldSave` is false |
| `ScanProperties.OneContentKeepsFirst` | src/Console/RemoveDuplicate.php:179-203 | with N unpinned entries sharing one content (not the base image's), only the earliest is kept and N - 1 paths are collected |
| `ScanProperties.RescanPrefix` | src/Console/RemoveDuplicate.php:179-203 | re-scanning what any prefix left behind keeps all of it, collects nothing, and ends with the same seen digests |
| `ScanProperties.SecondRunRemovesNothing` | src/Console/RemoveDuplicate.php:179-203 | a second run on the retained gallery, with the same base image and storage, keeps everything, collects nothing, leaves `shouldSave` false and ends with identical seen digests |
| `ScanProperties.WorkedExample` | src/Console/RemoveDuplicate.php:163-202 | base a (H1); gallery a, b (H1), c (H2), d (H2, pinned): the result keeps a, c and d, collects b's path, and sees H1 then H2 |
| `RemoveDuplicateCommand.IsOn` | src/Console/RemoveDuplicate.php:131-132 | an option is on only if it is truthy; a boolean default is itself; a string is on unless it is "", "0" or "false"; a bare option (no value) is off |
| `RemoveDuplicateCommand.DefaultsAreDryRun` | src/Console/RemoveDuplicate.php:96-109 | by default the run is a dry run and unlink is off |
| `RemoveDuplicateCommand.Gate` | src/Console/RemoveDuplicate.php:205-234 | save exactly when not a dry run and a duplicate was removed; delete exactly when saving with unlink on; report "Deleted file" whenever unlink is on and a duplicate was removed, so a dry run reports deletions it does not perform |
| `RemoveDuplicateCommand.ScanGallery` | src/Console/RemoveDuplicate.php:162-203 | the imperative loop returns exactly the retained gallery, collected paths and `shouldSave` of `Plan`, and `shouldSave` holds exactly when a path was collected |
| `RemoveDuplicateCommand.UnlinkedPaths` | src/Console/RemoveDuplicate.php:222-224 | the paths a sequence of events deleted are exactly those of its `Unlinked` events |
| `RemoveDuplicateCommand.CleanupGone` | src/Console/RemoveDuplicate.php:214-234 | the paths the deletion loop records as deleted are exactly those of its `Unlinked` events |
| `RemoveDuplicateCommand.CleanupTraceMembership` | src/Console/RemoveDuplicate.php:214-234 | a file is unlinked exactly when it was collected, is a regular file, deletion is due and does not fail; it is reported exactly when collected, a regular file, the report is due, and no due deletion of it failed |
| `RemoveDuplicateCommand.CleanupTraceOnce` | src/Console/RemoveDuplicate.php:214-234 | no path is unlinked twice, because a deleted file is no longer a regular file; when deletion is due, no event (deletion or report) occurs twice |
| `RemoveDuplicateCommand.RepeatedPathDeletedOnce` | src/Console/RemoveDuplicate.php:214-234 | a regular file collected twice in an applied run with unlink on is deleted and reported once, not twice |
| `RemoveDuplicateCommand.SilentCleanup` | src/Console/RemoveDuplicate.php:219-234 | when neither deletion nor report is due, the deletion loop has no observable effect |
| `MediaGallery.Gone` | src/Console/RemoveDuplicate.php:215-224 | after a set of files is deleted, a deleted path neither exists nor is a regular file; every other answer is unchanged |
| `MediaGallery.FileDriver.DeleteFile` | src/Console/RemoveDuplicate.php:223-227 | a deletion that raises the file-system exception leaves the storage as it was; otherwise the path joins the deleted files |
| `RemoveDuplicateCommand.DeleteCollected` | src/Console/RemoveDuplicate.php:214-235 | the imperative deletion loop, deleting through the driver, produces exactly the events of `CleanupTrace` on the storage as it was before the loop, and the driver's deleted files grow by exactly the unlinked paths |
| `RemoveDuplicateCommand.ProcessProduct` | src/Console/RemoveDuplicate.php:160-235 | one product's outcome is the one `ProductOutcome` specifies on the current storage, the driver's deleted files grow by exactly its unlinked paths, and an empty gallery is passed over with no effect |
| `RemoveDuplicateCommand.ProductUnlinksOnce` | src/Console/RemoveDuplicate.php:179-234 | within one product no file is unlinked twice, and in an applied run with unlink on no event occurs twice, however often the gallery names a file |
| `RemoveDuplicateCommand.RunOutcomes` | src/Console/RemoveDuplicate.php:160-236 | one outcome per product |
| `RemoveDuplicateCommand.RunOutcomesEach` | src/Console/RemoveDuplicate.php:160-236 | the outcome of product i is that of processing it on the storage with the files unlinked by products 0 to i-1 deleted |
| `RemoveDuplicateCommand.ProcessProducts` | src/Console/RemoveDuplicate.php:160-236 | the imperative loop over the products produces exactly `RunOutcomes`, and the driver's deleted files grow by exactly the files the products unlinked |
| `RemoveDuplicateCommand.Execute` | src/Console/RemoveDuplicate.php:131-236 | with the options read once, the run's outcomes are `RunOutcomes` for those options, and the storage loses exactly the unlinked files |
| `RemoveDuplicateCommand.DeletedFileKeptAsMissing` | src/Console/RemoveDuplicate.php:186-190 | a gallery entry whose file an earlier product deleted is not compared and stays in the gallery |
| `RemoveDuplicateCommand.RunUnlinksEachFileOnce` | src/Console/RemoveDuplicate.php:160-236 | across the run, a file unlinked for one product is not unlinked again for a later one, and a later product's entries naming it stay in its saved gallery |
| `RemoveDuplicateCommand.SavedIffRemoved` | src/Console/RemoveDuplicate.php:205-212 | a product is saved exactly when the run is not a dry run and a path was collected, and it is then saved with the retained gallery |
| `RemoveDuplicateCommand.DryRunChangesNothing` | src/Console/RemoveDuplicate.php:205-234 | a dry run saves nothing and unlinks nothing, yet it reports "Deleted file" for exactly the collected regular files when unlink is on |
| `RemoveDuplicateCommand.UnlinkedOnlyRedundant` | src/Console/RemoveDuplicate.php:205-228 | a file is unlinked only in an applied run with unlink on, only when the product is saved, only if it is a regular file whose deletion succeeds, and only if a redundant entry named it |
| `RemoveDuplicateCommand.DefaultRunChangesNothing` | src/Console/RemoveDuplicate.php:131-236 | with the default options no product is saved, there are no deletions or reports, and no file is removed from storage |
| `RemoveDuplicateCommand.SameFileTwiceDeletesKeptFile` | src/Console/RemoveDuplicate.php:192-228 | two unpinned entries naming the same existing file: the first is kept and saved, and its file is still unlinked in an applied run with unlink on |
| `RemoveDuplicateCommand.Orphaned` | src/Console/RemoveDuplicate.php:214-228 | the collected paths that no retained entry refers to, and no others |
| `RemoveDuplicateCommand.SafeOutcomeKeepsUsedFiles` | src/Console/RemoveDuplicate.php:214-228 | with deletion restricted to `Orphaned`, a file is unlinked only when the saved gallery no longer refers to it and a redundant entry did |

## Left out

- Magento and Symfony plumbing is not modelled: the area code and current store (lines 124-129 and 161), the product repository's `getList` and `save`, the search criteria (including the `image != no_selection` filter), and the SKU argument. Products are given as a sequence of `Product` values.
- `getEntityIds` (lines 252-263) is not modelled. It is a database query that only selects candidate products.
- MD5 and the file driver are not modelled. They are opaque functions of the full path: `md5`, `isExists`, `isFile`, and `deleteFails` for a `FileSystemException` from `deleteFile`. `isFileExists` and `isFile` turn exceptions into false, so each is one boolean function.
- PHP's loose comparison is not modelled. `==` (line 180) and `in_array` (line 192) are plain string equality here. Loose comparison would equate two distinct hex digests of the form `0e` followed by digits.
- The PHP array keys are not modelled. `unset` (line 196) keeps the other entries' keys, but the model returns the retained entries as a list in their original order.
- Save exceptions (lines 207-211) are not modelled. Saving is the `saved` field of the outcome. In the code, a failed save does not stop the deletion loop that follows.
- Console output is not modelled: the dry-run banners, the product count, "Removed duplicate image" and the final summary (lines 155-158, 198, 238-242). The one exception is the "Deleted file" line, which is the `Reported` event because it is gated.
- The file driver's storage is not modelled beyond deletion. Its state is the set of files deleted so far; a deleted path no longer exists and is no longer a regular file, and nothing else in the storage changes during a run. Whether a deletion fails is a fixed function of the path, and a failed deletion leaves the file in place.
- The product count check at line 151 is not modelled separately. With no products, `Execute` returns no outcomes.

## Findings

| source | as written | input that shows it | evidently intended | confidence | as-written member | corrected member |
|---|---|---|---|---|---|---|
| src/Console/RemoveDuplicate.php:192-228 | every collected path is deleted, including a file that a retained gallery entry still refers to | two unpinned gallery entries that both name `/x.jpg`, which exists and whose content differs from the base image, run with `--dryrun=false --unlink=true`: the first entry is kept and saved, and `/x.jpg` is deleted | delete only files that no retained entry refers to (orphaned files) | medium, not executed | `RemoveDuplicateCommand.SameFileTwiceDeletesKeptFile` | `RemoveDuplicateCommand.Orphaned` |

`ProductOutcome`, `ProcessProduct`, `ProcessProducts` and `Execute` follow
the code as written, including this deletion.
`SafeProductOutcome` is the product step with the deletion loop restricted
to `Orphaned` paths. `SafeOutcomeKeepsUsedFiles` proves the intended
property for it.
