# MemorEase core, modelled in Dafny

MemorEase is a desktop tool that pulls photos and videos off an Android
phone, sorts them into dated folders, and mirrors the folders onto a
backup disk. This project models its four core files and proves
properties of the model:

- `sort_tools.py`: the sorter `process_files_individually` and its pure rules:
  - the log-line layout;
  - the file-name normaliser `_normalize_filename`;
  - the `IMG…`/`VID…` name patterns;
  - the EXIF date;
  - perceptual-hash similarity;
  - the routing of each file to `photos/<year>`, `videos/<year>` or the quarantine directory `Erreur_tri`.
- `backup.py`: `run_backup`, its inner `mirror` and `count_files`.
- `adb_tools.py`: `run_adb_download`:
  - the verdict on `adb devices`;
  - the choice of the camera directory;
  - `_list_all_files`;
  - the per-file decision and the download loop.
- `update_maker.py`: `normalize_version`, `is_update_available`, the string rule of `get_local_version`, and `check_for_update`.

The file system, subprocesses and the network are not run. The model gets
what the program observes as plain data:
- directory contents as maps from name to file record;
- image hashes, MD5 digests, EXIF items and modification times as fields of that record;
- the lines `adb` prints;
- the JSON release record.

The failures the code catches, and whatever can change under the
program's feet, are oracle parameters: whether a rename, each of the two
moves of a file or a pull succeeds, and what the cancel flag reads at its `k`-th read. The failures
it does not catch are listed under "Left out". Each driver is a method with loops
over values, shaped like the source's loops. It is proved equal to a
reference function (`RenamePrefix`, `CopyRun`/`PruneRun`, `Notes`/`Pulls`)
or to invariant predicates. Lemmas then state what the program promises about those.

Files:
- `wrappers.dfy`: `Option`.
- `text.dfy`: Python string helpers (`strip`, `lstrip`, `lower`, `ljust`, `split`/`join`, `int()`, `str(n)`, zero padding, Windows `os.path.join`).
- `str_order.dfy`: Python's string order and `sorted`.
- `sort_tools.dfy`: the pure rules of `sort_tools.py`.
- `sort_pipeline.dfy`: `process_files_individually`.
- `backup.dfy`, `adb_tools.dfy`, `update_maker.dfy`: the other three core files.

Points of the code that the model follows as written:
- The sorter has two loops: rename, then deduplicate-and-move.
- Of two duplicates, the one reached later in sorted order is deleted. The code keeps the first file it retained. It never compares the two names with `max`.
- Similarity is `1 - d/64 >= 0.98`. For a 64-bit hash this means at most one differing bit.
- `Erreur_tri` is created before the second loop on every run that reaches the second loop.
- A move onto a name that already exists replaces that file (`shutil.move`). Two files whose dates agree to the second get the same synthesised name, so the later one replaces the earlier one (`SortPipeline.LaterDeliveryReplaces`, `SortTools.StampInjective`).

## Model

| member | source | states |
|---|---|---|
| Text.Lower | sort_tools.py:60 | `str.lower()` on ASCII: the same length, each character lower-cased. |
| Text.LowerIdempotent | sort_tools.py:60 | Lower-casing twice is lower-casing once. |
| Text.LStripSpec | update_maker.py:16 | `lstrip()` removes the longest leading run of white space and nothing else. |
| Text.RStripSpec | update_maker.py:16 | `rstrip()` removes the longest trailing run of white space and nothing else. |
| Text.StripNoSpace | update_maker.py:34 | A string without white space is its own `strip()`. |
| Text.LStripChar | update_maker.py:16 | `lstrip("v")` returns a suffix, everything removed is `v`, and the result does not start with `v`. |
| Text.LJust | sort_tools.py:16 | `ljust(w)` keeps the string as a prefix, pads with spaces, and has length max(len, w). |
| Text.ZeroPadValue | sort_tools.py:78 | `%04d` gives digits whose value is the number itself. |
| Text.DecimalValueOfNatToString | update_maker.py:34 | `str(n)` is a digit string whose value is `n`. |
| Text.Split | update_maker.py:34 | `split(".")` returns at least one part and no part contains the separator. |
| Text.SplitOfJoin | update_maker.py:34 | Splitting the join of separator-free parts gives the parts back. |
| Text.ParseInt | update_maker.py:34 | `int(s)` succeeds exactly when the stripped string is one optional `+` or `-`, then digits with single underscores only between digits; the value is the digits' decimal value, negated after a `-`. |
| Text.ParseIntOfMinusDigits | update_maker.py:34 | `int()` of a minus sign followed by a non-empty run of digits is minus their decimal value. |
| Text.ParseIntOfDigits | update_maker.py:34 | `int()` of a non-empty run of ASCII digits is its decimal value. |
| Text.ParseIntOfNatToString | update_maker.py:34 | `int(str(n)) == n`. |
| Text.ParseIntEmpty | update_maker.py:34 | `int("")` fails. |
| Text.PathJoinOrdinary | sort_tools.py:200-226 | Windows `os.path.join` puts exactly one `\` between a folder path that does not end in a separator and the name. |
| Text.PathJoinAtRoot | sort_tools.py:200-226 | After a root that already ends in `\` or `/`, or after a bare drive such as `E:`, `os.path.join` adds no separator. |
| Text.PathJoinEnds | adb_tools.py:120 | Whatever the root, the joined path starts with the root and ends with the name. |
| Text.PathJoinDrives | sort_tools.py:200-221 | A drive root such as `F:\` joins to `F:\2023`, a bare drive `E:` to `E:x`, and an ordinary folder gets one separator. |
| StrOrder.LeTotal | sort_tools.py:91 | Python's string `<=` is total. |
| StrOrder.LeAntisym | sort_tools.py:91 | Python's string `<=` is antisymmetric. |
| StrOrder.LeTrans | sort_tools.py:91 | Python's string `<=` is transitive. |
| StrOrder.SortSeq | sort_tools.py:125 | `sorted(list)` is ascending and a permutation of the list. |
| StrOrder.SortSeqDistinct | sort_tools.py:125 | Sorting a list without repeats leaves no repeats. |
| StrOrder.SortedListing | sort_tools.py:91 | `sorted(listdir)` is ascending, holds exactly the directory's names, each once. |
| SortTools.FormatLog | sort_tools.py:13-20 | `[code]` padded to a 10-column field, then the action, then a tab and `-> target` exactly when the target is non-empty; the exact length. |
| SortTools.SplitExt | sort_tools.py:59 | `splitext`: stem plus extension is the name. The extension is empty or one dot with no further dot. It is empty exactly when no dot follows a character other than a dot, so a non-empty extension starts at the last dot (`"a.b.c"` gives `".c"`, `".profile"` and `"..a"` give none). |
| SortTools.SplitExtOfJoin | sort_tools.py:59 | A dot-free stem followed by a proper extension splits back into the two. |
| SortTools.Search | sort_tools.py:63-72 | `re.search` for a fixed-width pattern: the leftmost match, or no match anywhere. |
| SortTools.SearchFinds | sort_tools.py:63-72 | The leftmost match, whenever there is one, is what the search returns. |
| SortTools.FirstAtUnique | sort_tools.py:63-72 | There is at most one leftmost match. |
| SortTools.NormalizeBranches | sort_tools.py:58-81 | The four branches in order: a 14-digit run; `YYYY-MM-DD_HH-MM` (12 digits); `YYYY-MM-DD` with `_N%04d` counting the matching names of the listed directory plus one; otherwise the name unchanged. |
| SortTools.NormalizeIdempotent | sort_tools.py:58-81 | Normalising a normalised name, with any listing, changes nothing (while the counter stays below 14 digits). |
| SortTools.IdemStampBranch | sort_tools.py:63-65 | The 14-digit branch's output is a fixed point. |
| SortTools.IdemMinuteBranch | sort_tools.py:67-70 | The date-and-minute branch's output is a fixed point. |
| SortTools.IdemDateBranch | sort_tools.py:72-79 | The date-only branch's output is a fixed point. |
| SortTools.PatternYear | sort_tools.py:198-203 | `group(1)` of a matching name is four digits. |
| SortTools.CanonicalOf | sort_tools.py:25-26 | `IMG`/`VID` + 14 digits + `.jpg`/`.mp4` matches its pattern, with the first four digits as its year. |
| SortTools.SynthesisedNameMatches | sort_tools.py:206-210 | The name built from a date matches the pattern of its kind, and its year group is the date's year. |
| SortTools.YearText | sort_tools.py:209 | `strftime("%Y")` is four digits whose value is the year. |
| SortTools.Stamp | sort_tools.py:208 | `strftime("%Y%m%d%H%M%S")` is 14 digits: the year in four, then the month, day, hour, minute and second in two each, each field with the date's value. |
| SortTools.StampInjective | sort_tools.py:208 | Two dates with the same stamp are equal to the second, so two files get the same synthesised name exactly when their dates agree to the second. |
| SortTools.ParseExifDate | sort_tools.py:40-43 | `strptime` succeeds only on the `YYYY:MM:DD HH:MM:SS` layout (and a valid date). |
| SortTools.ParseExifText | sort_tools.py:41 | Parsing the EXIF spelling of a date gives the date back. |
| SortTools.FirstDateTag | sort_tools.py:37-43 | The loop returns the parse of the first `DateTimeOriginal`/`DateTime` item, and `None` when there is none. |
| SortTools.ExifDateTime | sort_tools.py:31-46 | `None` when the EXIF block cannot be read, is empty or holds no date tag; otherwise the parse of the first date tag; the other tag is not tried. |
| SortTools.Hamming | sort_tools.py:149 | The distance between two hashes is at most their size. |
| SortTools.SimilarMeansOneBit | sort_tools.py:148-151 | `1 - d/64 >= 0.98` holds exactly when at most one bit differs. |
| SortTools.SimilarReflSym | sort_tools.py:148-151 | Similarity is reflexive and symmetric. |
| SortTools.FirstSimilar | sort_tools.py:153-165 | The scan of `seen_images` returns the first entry that the hash or one of its rotations matches, and none exactly when no entry matches. |
| SortTools.FirstDigest | sort_tools.py:178-179 | The first `seen_videos` entry with the same digest, and none exactly when there is none. |
| SortTools.Put | sort_tools.py:171 | Assigning into an insertion-ordered dict adds the key; a new key goes last. |
| SortTools.RouteOf | sort_tools.py:194-218 | A canonical photo name goes to `photos/<its year>`, else a canonical video name to `videos/<its year>`; another `.jpg`/`.mp4` is undated (quarantined under its own name) exactly when it has no date; every other name is unsupported. |
| SortTools.RouteOfDated | sort_tools.py:204-210 | A dated non-canonical `.jpg` goes to `photos/<year>` as `IMG<stamp>.jpg` from its EXIF date, a dated non-canonical `.mp4` to `videos/<year>` as `VID<stamp>.mp4` from its modification time. |
| SortTools.RouteDestinationSound | sort_tools.py:198-210 | A file routed to a dated tree has a canonical name of that kind, and the year directory is the year in that name. |
| SortTools.RouteKeepsCanonicalName | sort_tools.py:198-203 | A file that already has a canonical name is routed under that name. |
| SortPipeline.PercentMonotone | sort_tools.py:117 | `int(done/total*100)` never goes down as `done` grows. |
| SortPipeline.PercentBounded | sort_tools.py:117 | The percentage is at most 100 while `done <= total`, and is 100 at `done == total`. |
| SortPipeline.UncancelledAt | sort_tools.py:99 | The flag reads clear at the `n` reads from `base` exactly when none of them reads it set. |
| SortPipeline.MarksNondecreasing | sort_tools.py:116-117 | The first loop's progress values never go down. |
| SortPipeline.Rename | sort_tools.py:104-111 | `os.rename` goes through exactly when the new name differs, no file of exactly that name exists, the source exists and the rename succeeds; the directory then has the file under the new name and nothing else changes. |
| SortPipeline.RenameFileStep | sort_tools.py:102-114 | One step keeps the rename loop's invariant, and the name it keeps is the normal form when the rename is taken, otherwise the old name. |
| SortPipeline.RenameStep | sort_tools.py:104-114 | Keeping or renaming the next file keeps every file once, under its recorded name, with its contents. |
| SortPipeline.NormalOfAt | sort_tools.py:102-103 | The normal form recorded for each file is `_normalize_filename(f, ext)` with the file's own lower-cased extension. |
| SortPipeline.RenamePrefixInv | sort_tools.py:98-117 | After any number of files, the staging directory, names, log and progress satisfy the loop invariant. |
| SortPipeline.RenamePrefixFiles | sort_tools.py:104-114 | After `k` files: each handled file is under its decided name with its own contents; the others are untouched. |
| SortPipeline.RenameAll | sort_tools.py:96-117 | The rename loop stops at the first read of the flag that is set. Its staging directory, names and progress are those of the reference loop, and its log is the reference log plus `[STOP]` when stopped. |
| SortPipeline.RenameOutcome | sort_tools.py:96-117 | From the loop's result: it stops exactly when some read is set; contents are kept; the names are decided by the rename rule; the log is the banner, one line per file and one `[STOP]`. |
| SortPipeline.RenameOutcomeLog | sort_tools.py:96-114 | The first loop's log is the banner, then one line per handled file (`OK`, `RENAMED` or `ERREUR`), then one `[STOP]` exactly when stopped, with no `[DUPLICAT]`. |
| SortPipeline.StopsIffCancelled | sort_tools.py:98-101 | A loop that reads the flag before each step stops exactly when one of its reads is set. |
| SortPipeline.CompleteRename | sort_tools.py:104-114 | After the last file, the staging directory holds exactly the new names, each once. |
| SortPipeline.RenamePhase | sort_tools.py:91-117 | The first loop: it stops exactly when one read of the flag is set. The files reached keep their contents under the names the rename rule gives. The files not reached are untouched. The log is the banner, the per-file lines and one `[STOP]` when stopped. The progress never goes down and stays at most 100. |
| SortPipeline.DuplicateCheck | sort_tools.py:142-184 | A file reported as a duplicate names a retained image or video. |
| SortPipeline.DuplicateCheckSpec | sort_tools.py:142-184 | A `.jpg` is a duplicate exactly when a retained image matches it, straight or turned, and it names the first such image. A `.mp4` likewise, for the first retained video with the same digest. An unreadable `.jpg` is an analysis error. Other extensions are not searched. |
| SortPipeline.CheckKept | sort_tools.py:167-171 | A file is retained exactly when it was searched, had a hash or digest, and no copy was found. |
| SortPipeline.DeliverGrows | sort_tools.py:220-229 | A move keeps the well-placed trees well placed and removes only that file from staging. |
| SortPipeline.MoveTo | sort_tools.py:220-231 | `shutil.move` to the target, then on failure a second move into `Erreur_tri` under the same name, then on a second failure no change; one log line. The two moves are separate attempts of the move oracle, also when both go to the same path. The logged target is built with Windows `os.path.join`, so a drive root such as `F:\` gets no doubled separator. |
| SortPipeline.Dispatch | sort_tools.py:194-231 | An unsupported name stays. Otherwise the file goes to its route's target or, failing that, to `Erreur_tri`, as its fate says. Nothing else changes, and no `[DUPLICAT]` line is logged. |
| SortPipeline.DropDuplicate | sort_tools.py:167-169 | A duplicate is removed from staging with one `[DUPLICAT]` line and two progress steps. |
| SortPipeline.Retain | sort_tools.py:171 | `seen_*[filename] = h` adds at most the file itself. |
| SortPipeline.KeepAndDispatch | sort_tools.py:170-234 | A file that is no duplicate is retained when hashed, then dispatched as its fate says, with two progress steps. |
| SortPipeline.SortOne | sort_tools.py:125-234 | One iteration: a missing file adds two steps and nothing else. Otherwise it reports a duplicate exactly when the search finds one, that file then being removed, and it leaves an unsupported name in place. |
| SortPipeline.SortOneFate | sort_tools.py:125-234 | What one iteration retains, and that its file ends as its fate says. |
| SortPipeline.KeepFate | sort_tools.py:186-231 | A file that is no duplicate ends where its move fate puts it. |
| SortPipeline.MoveFateLeft | sort_tools.py:214-218 | A file is left in staging without a move exactly when its name is unsupported. |
| SortPipeline.MoveFateCanonical | sort_tools.py:198-203 | A canonical photo (video) name is delivered to its year under the photo (video) root when that move succeeds. |
| SortPipeline.RouteFatePlaced | sort_tools.py:198-229 | When a route's year directory fits its name, the move and its `Erreur_tri` fallback put only well-placed names in the dated trees. |
| SortPipeline.MoveFatePlaced | sort_tools.py:198-210 | Only canonical names, under their own year, arrive in the dated trees. |
| SortPipeline.MoveFateDatedPhoto | sort_tools.py:204-207 | A non-canonical `.jpg` with an EXIF date goes to its year under the photo root as `IMG<stamp>.jpg`; if that move fails, to `Erreur_tri` under that name; else it stays. |
| SortPipeline.MoveFateDatedVideo | sort_tools.py:204-210 | A non-canonical `.mp4` with a modification time goes to its year under the video root as `VID<stamp>.mp4`; if that move fails, to `Erreur_tri` under that name; else it stays. |
| SortPipeline.MoveFateUndated | sort_tools.py:211-228 | An undated `.jpg`/`.mp4` goes to `Erreur_tri` under its own name when the first move or the second move to the same path goes through, and otherwise stays. |
| SortPipeline.UndatedRetry | sort_tools.py:211-229 | An undated file whose first move fails and whose second move to the same path succeeds ends in `Erreur_tri`, after the "pas de date" line and the "déplacé vers Erreur_tri" line. |
| SortPipeline.MoveFateStuck | sort_tools.py:225-231 | A file that stays after failed moves has a handled extension. |
| SortPipeline.SeenAfterImages | sort_tools.py:153-171 | The retained images are exactly the earlier retained `.jpg` files, each with its own hash. |
| SortPipeline.ImagesSound | sort_tools.py:171 | Every retained image comes from an earlier retained `.jpg`. |
| SortPipeline.ImageKept | sort_tools.py:171 | A retained `.jpg` stays among the retained images. |
| SortPipeline.SeenAfterVideos | sort_tools.py:176-184 | The retained videos are exactly the earlier retained `.mp4` files, each with its own digest. |
| SortPipeline.VideosSound | sort_tools.py:184 | Every retained video comes from an earlier retained `.mp4`. |
| SortPipeline.VideoKept | sort_tools.py:184 | A retained `.mp4` stays among the retained videos. |
| SortPipeline.SeenAfterStep | sort_tools.py:171 | Visiting a name appends it, with its hash or digest, exactly when it is retained. |
| SortPipeline.SeenAfterKeeps | sort_tools.py:120-121 | The second loop never drops a retained entry. |
| SortPipeline.DeletedIffCopy | sort_tools.py:142-184 | A file reached by the second loop is deleted exactly when an earlier retained file is the same picture (straight or turned) or the same video. |
| SortPipeline.DeletedHasOrigin | sort_tools.py:153-181 | A deleted file names an earlier retained file with the same content as its original. |
| SortPipeline.CopyFound | sort_tools.py:153-178 | The search finds a copy for every earlier retained file with the same content. |
| SortPipeline.ProgressStep | sort_tools.py:186-191 | Each iteration's progress values stay nondecreasing and within the two percentages. |
| SortPipeline.FateStep | sort_tools.py:125-234 | One iteration follows the reference definitions of what is retained and where each file ends. |
| SortPipeline.SortStep | sort_tools.py:125-234 | One iteration keeps the second loop's invariant: staging, retained keys, deletions. |
| SortPipeline.SortNext | sort_tools.py:130-234 | The loop body keeps both invariants, the progress bounds, the `[DUPLICAT]` count and what each destination holds. |
| SortPipeline.SortAll | sort_tools.py:125-234 | The second loop stops exactly at a set read, with `[STOP]` last; `done` rises by 2 per file; progress never falls. There is one `[DUPLICAT]` per deletion. The trees only grow with well-placed entries, unsupported names stay, and every file reached ends as its fate says. Each destination then holds the file delivered there last, or its earlier content if none was. |
| SortPipeline.DeliverAt | sort_tools.py:221-222 | A move puts the file at its target and changes no other destination. |
| SortPipeline.SortOneTargets | sort_tools.py:125-234 | After one iteration a destination holds the file exactly when that file's fate delivers it there; otherwise it is unchanged. |
| SortPipeline.Fates | sort_tools.py:125-234 | The fates of the first `i` files, in order. |
| SortPipeline.DeliveredOnDisk | sort_tools.py:130-134 | A delivered file was present in staging. |
| SortPipeline.ContentStep | sort_tools.py:125-234 | One iteration keeps "each destination holds the last file delivered there". |
| SortPipeline.DeliveredHolds | sort_tools.py:221-222 | A file delivered to a target after which nothing else is delivered there is what the target holds. |
| SortPipeline.LaterDeliveryReplaces | sort_tools.py:221-222 | Of two files delivered to one target, the target ends with a later one, never the earlier. |
| SortPipeline.UndeliveredKept | sort_tools.py:125-234 | A destination nothing was delivered to keeps its earlier content. |
| SortPipeline.ContentsHeldBefore | sort_tools.py:91-123 | What each destination holds depends only on the destinations of the starting trees, so the rename loop, which changes only staging, does not affect it. |
| SortPipeline.DeletedOrder | sort_tools.py:125-181 | A deleted file comes after the file it copies in sorted order. |
| SortPipeline.RunProgress | sort_tools.py:116-237 | Both loops' progress then the final 100 never goes down and never exceeds 100. |
| SortPipeline.FramedLog | sort_tools.py:119-238 | The second loop's lines sit between the step-2 banner and the closing line. |
| SortPipeline.SortRenamed | sort_tools.py:119-234 | The second loop over `sorted(renamed)`: fates and the fixed staging entries are as in `SortAll`. Each deleted file is the later of two renamed files and is gone from staging. Each destination then holds the file delivered there last, or its earlier content if none was. |
| SortPipeline.DeletionsOrdered | sort_tools.py:125-181 | Each deletion removed the later of two distinct renamed names. |
| SortPipeline.SortPhase | sort_tools.py:119-238 | After a complete first loop: `Erreur_tri` exists, then the second loop, then progress 100 and `[FIN]`; the full progress never goes down. Each destination then holds the file delivered there last, or its earlier content if none was. |
| SortPipeline.FinishRun | sort_tools.py:119-238 | As `SortPhase`, stated through the run predicates: each file reached ends as its fate over the renamed staging directory says, and each destination holds the last file delivered there. |
| SortPipeline.SortStaging | sort_tools.py:91-238 | With the save directory present: stopped exactly when a read of the flag during the first loop is set. Then nothing outside staging changes, `[STOP]` is last, the reads before the stop were clear, each handled file is in staging under its decided name with its content and each file not reached is there unchanged. Otherwise a full first loop, then the second loop as `FinishRun` states it, which reached every name unless a read of its own was set, and stopped exactly at that read. |
| SortPipeline.StoppedKeepsFiles | sort_tools.py:96-101 | A cut-short first loop loses no file: each content of the staging directory is still in it. |
| SortPipeline.SecondLoopComplete | sort_tools.py:125-128 | With the flag clear at every read of the second loop, every sorted name is handled. |
| SortPipeline.ProcessFilesIndividually | sort_tools.py:86-238 | A missing save directory gives one error line and no change. Otherwise the listing is sorted, the run stops exactly when the flag is set during the first loop, and the whole run's properties hold as in `SortStaging`, the staging facts of a stopped run and the cancel reads of the second loop included. The progress never goes down or above 100. The deletions equal the `[DUPLICAT]` lines, and each removed the later of two files. |
| Backup.WalkCount | backup.py:15-19 | `count_files` counts every file the walk yields, which is the number of files in the tree. |
| Backup.MirroredMatchesSource | backup.py:37-100 | A completed mirror leaves exactly the source's paths, each with its source's digest; with a collision-free digest it is the source. |
| Backup.MirroredStable | backup.py:64-75 | Mirroring again right after a mirror leaves everything alone and changes nothing. |
| Backup.MirrorStages | backup.py:55-98 | The copy loop then the deletion loop give the mirrored tree. |
| Backup.WorkBound | backup.py:25-28 | The files left alone plus the files deleted are at most the files of the old destination. |
| Backup.CopyTreeFacts | backup.py:55-82 | The copy loop gives each visited file the source's content unless its digest already agreed. |
| Backup.PruneTreeFacts | backup.py:84-98 | The deletion loop removes exactly the visited files the source lacks. |
| Backup.CopyPrefixDone | backup.py:64-80 | The copy loop adds 1 per file and 1 more per file left alone, reporting each new value. |
| Backup.CopyPrefixLog | backup.py:73-82 | The copy loop logs one line per file, `[IGNORÉ]` or `[COPIÉ]`. |
| Backup.PrunePrefixDone | backup.py:89-96 | The deletion loop adds 1 and one report per deleted file. |
| Backup.PrunePrefixLog | backup.py:97-98 | The deletion loop logs one `[SUPPRIMÉ]` line per deleted file. |
| Backup.ReachedStops | backup.py:55-59 | The loop reads the flag clear before each file it handles, and set at the read where it stops. |
| Backup.ReachedAt | backup.py:84-88 | Those two facts fix how far the loop gets. |
| Backup.CopyRunTree | backup.py:55-82 | A completed copy loop has copied every source file whose digest differs. |
| Backup.PruneRunTree | backup.py:84-98 | A completed deletion loop has removed exactly the old files the source lacks. |
| Backup.MirrorRunChecks | backup.py:37-100 | `mirror` reads the flag once per source file and old destination file, and returns True exactly when none of them finds it set. |
| Backup.MirrorRunStop | backup.py:56-59 | An interrupted mirror logs `[STOP]` last. |
| Backup.MirrorRunBound | backup.py:37-100 | `done` rises by at most one per source and old destination file, and the reports never go down. |
| Backup.MirrorRunWork | backup.py:64-98 | A completed mirror adds 2 per file left alone, 1 per copy, 1 per deletion, with one log line each. |
| Backup.MirrorRunLog | backup.py:73-98 | A completed mirror logs exactly the files left, copied and deleted, and no `[STOP]`. |
| Backup.MirrorRunMirrored | backup.py:37-100 | A completed mirror leaves the mirrored tree. |
| Backup.MirrorRunFrame | backup.py:37-100 | Even when interrupted, every destination file holds its source's content or its own old content. |
| Backup.CopyLoop | backup.py:55-82 | The copy loop equals the reference copy run. |
| Backup.PruneLoop | backup.py:84-98 | The deletion loop equals the reference deletion run. |
| Backup.Mirror | backup.py:37-100 | `mirror` equals the reference mirror run. |
| Backup.CombineProgress | backup.py:29-32 | The reports start at 0, never go down and stay within `total`. |
| Backup.CombineSuccess | backup.py:102-110 | Success exactly when no read of the flag is set. |
| Backup.RunBackup | backup.py:12-110 | `run_backup` equals the reference run: photos first, videos only after a completed photo mirror, one last read of the flag. |
| Backup.BackupProgress | backup.py:25-32 | `done <= total`; the reports start at 0 and never go down or exceed `total`. |
| Backup.BackupSuccess | backup.py:102-110 | `run_backup` succeeds exactly when no read of the flag finds it set. |
| Backup.BackupTrees | backup.py:102-107 | The photo tree is mirrored unless a read during the photo mirror is set, and then the video destination is untouched. After a success both trees are mirrored. |
| Backup.BackupWork | backup.py:25-98 | After a success, `done` is `total` minus the files found on both sides plus those left alone. |
| AdbTools.Basenames | adb_tools.py:20-26 | The names of all files in the walked tree, and none when the root is not a directory. |
| AdbTools.ListAllFiles | adb_tools.py:20-26 | The nested loops give exactly the set of basenames. |
| AdbTools.Having | adb_tools.py:49-51 | The device lines whose stripped text ends with a tab and the status. |
| AdbTools.Classify | adb_tools.py:33-61 | A full characterisation: exception; fewer than two lines; any unauthorized; else any offline; else no ready device; else ready. |
| AdbTools.ListingUpToMembers | adb_tools.py:76 | A name is listed exactly when it is a non-empty stripped line. |
| AdbTools.ListingMembers | adb_tools.py:76 | The listing holds exactly the non-empty stripped lines. |
| AdbTools.FirstFrom | adb_tools.py:72-81 | Nothing is found exactly when every remaining directory fails or lists nothing. |
| AdbTools.FirstListingEmpty | adb_tools.py:72-84 | The run finds no remote files exactly when every candidate directory fails or lists nothing. |
| AdbTools.FirstListingFound | adb_tools.py:72-81 | A listing found comes from a directory all of whose predecessors gave nothing. |
| AdbTools.SelectRemote | adb_tools.py:64-81 | The loop over the four paths gives the first non-empty listing. |
| AdbTools.HasExtIsLowerExt | adb_tools.py:99 | The suffix test is `splitext(name)[1].lower() == e`. |
| AdbTools.KindOfExt | adb_tools.py:99-116 | `.jpg` is a photo, `.mp4` a video, anything else neither. |
| AdbTools.DecideCases | adb_tools.py:99-127 | A disabled kind is skipped. A photo or video already present in its tree is skipped. Any other `.jpg`/`.mp4` is fetched, and the rest is unsupported. |
| AdbTools.FileFailures | adb_tools.py:118-125 | A file's pull either counts or logs an error. |
| AdbTools.DownloadedCount | adb_tools.py:118-125 | `downloaded` plus the pull errors equals the pulls run. |
| AdbTools.PullsAtMost | adb_tools.py:116-123 | At most one pull per file. |
| AdbTools.PullsFetched | adb_tools.py:116-123 | The pulls are exactly those of the files decided as fetch, each from the fixed camera directory to the save path joined with the name by Windows `os.path.join`. |
| AdbTools.HandleFile | adb_tools.py:99-130 | The loop body gives the reference log lines, pulls and count (at most 1). |
| AdbTools.DownloadLoop | adb_tools.py:86-134 | The loop stops at the first set read or at the end. It counts and pulls as the per-file rule says, logs one entry per file, the interruption and the summary, and reports 0, 1, …, processed. |
| AdbTools.DownloadFiles | adb_tools.py:86-134 | The download with the two local basename sets. |
| AdbTools.RunAdbDownload | adb_tools.py:28-134 | A refused device check logs its one error and does nothing else. Else the first non-empty listing is used: none means a silent return, otherwise the download as `DownloadLoop` states it. |
| UpdateMaker.ParseParts | update_maker.py:34 | The tuple of `int()`s exists exactly when every part parses, and holds their values. |
| UpdateMaker.NormalizeVersion | update_maker.py:32-36 | The stripped version split at dots, each part read by `int()`; `(0, 0, 0)` when any part fails. |
| UpdateMaker.NormalizeRender | update_maker.py:32-36 | Normalising the canonical spelling of a version gives the version back. |
| UpdateMaker.TupleLessIff | update_maker.py:39 | Tuple `<` is the lexicographic order in which a proper prefix is smaller. |
| UpdateMaker.TupleLessIrreflexive | update_maker.py:39 | No tuple is below itself. |
| UpdateMaker.TupleLessAsymmetric | update_maker.py:39 | Of two tuples, at most one is below the other. |
| UpdateMaker.TupleLessTransitive | update_maker.py:39 | Tuple `<` is transitive. |
| UpdateMaker.TupleLessTotal | update_maker.py:39 | Two different tuples are ordered one way or the other. |
| UpdateMaker.UpdateIrreflexive | update_maker.py:38-39 | No version is an update over itself. |
| UpdateMaker.UpdateAsymmetric | update_maker.py:38-39 | Of two versions, at most one is an update over the other. |
| UpdateMaker.UpdateOfRendered | update_maker.py:38-39 | On canonical spellings the decision is the tuple order of the versions. |
| UpdateMaker.TenAfterNine | update_maker.py:38-39 | `1.10.0` is an update over `1.9.3`: parts compare as numbers. |
| UpdateMaker.PrefixIsOlder | update_maker.py:38-39 | `1.2.0` is an update over `1.2`. |
| UpdateMaker.LocalVersion | update_maker.py:13-18 | `"0.0.0"` when the file cannot be read. Otherwise the stripped contents minus a leading run of `v`, and the result does not start with `v`. |
| UpdateMaker.LocalVersionOfFile | update_maker.py:13-18 | A file holding `v…v<version>\n` gives the version, which normalises back to its tuple. |
| UpdateMaker.CheckForUpdate | update_maker.py:41-56 | The local version is always returned, and there is no remote version exactly when there is no record or it is empty. The missing version defaults to `0.0.0`. An update is offered exactly when the remote tuple is newer, with the record's url, its changelog or `[]`, and its mandatory flag or `False`. |
| UpdateMaker.NoUpdateToSameVersion | update_maker.py:41-56 | A release naming the installed version offers nothing. |
| UpdateMaker.NoUpdateWithoutVersions | update_maker.py:41-56 | With no version file and no version in the record, nothing is offered. |
| UpdateMaker.UpdateOffered | update_maker.py:41-56 | Canonical spellings on both sides: the update is offered exactly when the remote tuple is newer, and it names the remote spelling. |
| UpdateMaker.NoUpdateBack | update_maker.py:41-56 | If a release naming the version installed as `b` is offered over `a`, one naming `a` is not offered over `b`. |

## Left out

- The file system, `os.walk`, `os.listdir`, subprocesses, `time.sleep`, the network and the GUI callbacks are not run. Their results are inputs (maps, line lists, records). The failures the code catches are oracle parameters; the ones it does not catch are listed below.
- `Backup.CopyLoop`: `shutil.copy2` always succeeds and `md5sum` raises nothing. In the code, a failing copy (backup.py:77) or an exception from `md5sum` other than `FileNotFoundError` (backup.py:65-68) escapes `run_backup`, whose caller (main.py:932) does not catch it, so the backup ends with that exception.
- `Backup.PruneLoop`: `os.remove` always succeeds. In the code, an error other than `FileNotFoundError`, such as `PermissionError` (backup.py:90-93), escapes `run_backup` in the same way.
- `Text.Lower` lower-cases ASCII letters only. Python's `str.lower()` also maps other letters, so the code renames `20200101123456.JPÉG` to `VID20200101123456.jpég` while the model gives `VID20200101123456.jpÉg` (sort_tools.py:60, 65).
- `Text.ParseInt` accepts only the ASCII digits `0`-`9`. Python's `int()` accepts every Unicode decimal digit.
- `UpdateMaker.NormalizeVersion`: with the ASCII-only `ParseInt`, a version written in other Unicode digits gives `[0, 0, 0]`. The code parses it, so `normalize_version("١.٢.٣")` is `(1, 2, 3)` there (update_maker.py:34).
- The order in which `os.walk` yields files, and the order of `seen_*.items()` that depends on it, are inputs. The model does not derive them from directory order.
- MD5 (`md5sum`, `file_md5`), `imagehash.phash`, `Image.rotate` and the EXIF reader are abstract: each file record carries its digest, its hash, its three rotated hashes and its EXIF items.
- `shutil.copy2` copies contents; file metadata is not modelled. `os.makedirs` is assumed to succeed.
- `FileNotFoundError` in `mirror` is not modelled: a file listed by the walk is present when `md5sum` or `os.remove` reads it.
- `run_backup` with `progress_callback`, `log_callback` or `cancel_flag` set to `None`: the model always has all three.
- Log lines are modelled as structured entries, not as the formatted text. `backup.py` and `adb_tools.py` log `Entry`/`Note` values. The sorter's `LogEntry` carries the code, the action and the target that `format_log` lays out, as `SortTools.FormatLog` states.
- `progress_callback(done, total)` in `backup.py` is recorded as the sequence of `done` values. `total` is fixed for the run.
- `mirror` logs `[STOP]` and returns `False` at the first set read in either loop. `run_backup` then returns at once. The computed `done` is returned, as in the code.
- The cancel flag is the oracle `cancelled`, with one read per check in the code. In `backup.py` and `adb_tools.py` it is a function of the read's number. In the sorter it is the set of the numbers of the reads that see the flag set. The thread that sets it is outside the model.
- `adb start-server` and the raw decoding of `adb devices` are not modelled: the device check starts from the output's lines or the exception raised.
- `AdbTools.RunAdbDownload`: a pull counts as downloaded whenever `subprocess.run` returns, whatever the exit status, because the code does not check it.
- `AdbTools.PullOf`: every pull reads from `/sdcard/DCIM/Camera`, whichever directory was listed, as the code does.
- `AdbTools.DownloadFiles`: the `.jpg` test is made only against the photo tree and the `.mp4` test only against the video tree, as in the code.
- `AdbTools.DownloadFiles`: the device's extension classification is passed in as `Setup.kindOf`; `RunAdbDownload` passes `KindOf`.
- `AdbTools.DownloadLoop`: the first progress report (0 before the loop) is modelled; the local listings are read after it, as in the code.
- `update_maker.py` `get_remote_info`, `TEST_LOCAL`, `download_update` and `launch_new_version` are network and process I/O: `CheckForUpdate` takes the record that `get_remote_info` returned.
- `UpdateMaker.CheckForUpdate`: JSON `null` values, a non-string `version` (whose `.strip()` raises an `AttributeError` that the code does not catch) and a JSON document that is not an object are not modelled. Neither is a `changelog` that is not a list of strings or a `mandatory` that is not a boolean: the record types them as `seq<string>` and `bool`, while the code copies whatever JSON value is there into its result (update_maker.py:52-53).
- `UpdateMaker.LocalVersion`: file encoding and decoding errors count as a failure to read the file (`None` contents).
- `SortPipeline.DropDuplicate` always removes the file. In the code, a failing `os.remove` on a `.jpg` is caught by the analysis `except` (sort_tools.py:168, 173-174), and the file then stays in staging, unclassified.
- `SortPipeline.DuplicateCheck`: on a `.mp4`, `file_md5` and `os.remove` are outside any `try` (sort_tools.py:176-180). A failure there ends the whole run with an exception. The model's digest is total and the removal always succeeds.
- `SortPipeline.DuplicateCheck`: hashing a rotated image (sort_tools.py:159) never fails in the model. In the code such a failure is caught and logged as an analysis error.
- `SortTools.MatchesPattern`: `\d` and `re.IGNORECASE` are ASCII-only. Python's `str` patterns also accept other Unicode digits and Unicode case folding.
- `SortTools.Search`: the `\d` of the normaliser's patterns is ASCII-only.
- `Backup.Mirror`: paths are compared exactly, letter case included, as on a case-sensitive file system. The program is built for Windows (utils.py:10-22, 44), where names that differ only in case are one file. With a source `IMG_1.JPG` and an old backup `img_1.jpg`, the code finds no `IMG_1.JPG` in the backup (backup.py:64), so `copy2` writes onto `img_1.jpg` (backup.py:77). The deletion loop then finds `img_1.jpg` missing from the source and removes it (backup.py:89-91), and the photo is gone from the backup. The model keeps both names apart and ends with `IMG_1.JPG` in the backup.
- `Backup.MirroredMatchesSource`: holds only for exact path comparison, for the reason given under `Backup.Mirror`.
- `Backup.MirrorRunMirrored`: holds only for exact path comparison, for the reason given under `Backup.Mirror`.
- `Backup.BackupTrees`: holds only for exact path comparison, for the reason given under `Backup.Mirror`.
- `SortPipeline.Deliver`: destination names are compared exactly. On Windows, `shutil.move` onto a name in a dated tree or in `Erreur_tri` that differs only in case replaces that file under its old spelling. The model keeps both entries.
- `SortPipeline.Rename`: names are compared exactly, letter case included. On a case-insensitive file system such as Windows, a target that differs only in case already exists and the rename fails, while the model lets it through.
- `Text.PathJoin` follows Windows `os.path.join` only for a second part with no drive and no leading separator. Every part the code joins there is a plain file or folder name (`Erreur_tri`, a year, a file name).
- `SortTools.ParseExifDate` accepts only the fixed-width layout. `strptime` also accepts fields without leading zeros, such as `2023:1:2 3:4:5`.
- `SortPipeline.ProcessFilesIndividually`: `appListing`, the listing of the tool's own directory that `_normalize_filename` counts in, stays fixed for the whole run.
- `SortPipeline.Percent` computes `int(done_ops / total_ops * 100)` as exact integer division. The code uses a float, and its rounding can differ by one at exact multiples.
- The exception text in the log is a fixed non-empty constant (`ExceptionText`). `str(e)` can be empty, and then `format_log` would drop the `-> ` target.
- `SortPipeline.ProcessFilesIndividually`: a file that the first loop reached but cannot find any more on disk is not modelled as disappearing between the loops. `os.path.exists` is read from the staging map.
- `SortTools.Normalize`: `NormalizeIdempotent` needs the listing to hold fewer than 9999999999999 names, so that the `_N%04d` counter stays below 14 digits.
- Floating-point `similarity >= 0.98` is stated over the integers as `50 * d <= 64`. This is exact for a 64-bit hash.
