/**
 * The driver `process_files_individually`: a rename loop over the sorted
 * staging directory, then one loop over the sorted renamed names that
 * removes duplicates and moves every survivor to its destination tree.
 *
 * The file system is a `Trees` value: the regular files directly in the
 * staging directory, the two dated trees and the quarantine directory
 * `Erreur_tri`.  What the tool learns from the outside world (image hashes,
 * digests, EXIF, modification times, whether a rename or move succeeds,
 * whether the user pressed cancel) comes in as data and oracle functions.
 */
module SortPipeline {
  import opened Wrappers
  import opened Text
  import opened StrOrder
  import opened SortTools

  /** A file's place in a dated tree: `<root>\<year>\<name>`. */
  datatype Place = Place(year: string, name: string)

  /** Where `shutil.move` sends a file. */
  datatype Target = PhotoDir(place: Place) | VideoDir(place: Place) | QuarantineDir(name: string)

  /**
   * Which `shutil.move` of a file: the move to its destination, or the
   * second one into `Erreur_tri` after the first raised.
   */
  datatype Attempt = First | Retry

  /** The part of the file system the sorter reads and changes. */
  datatype Trees = Trees(
    staging: map<string, MediaFile>,
    photos: map<Place, MediaFile>,
    videos: map<Place, MediaFile>,
    quarantineExists: bool,
    quarantine: map<string, MediaFile>)

  /** The three directories the caller passes: staging, photos root, videos root. */
  datatype Paths = Paths(save: string, photos: string, videos: string)

  /** One call of `log_callback(format_log(code, action, target))`. */
  datatype LogEntry = LogEntry(code: Code, action: string, target: string)

  /** The codes the sorter logs with. */
  datatype Code = INFO | SEARCH | DUPLICAT | RENAMED | MOVE | OK | ERREUR | IGNORE | STOP | FIN

  /** `str(e)` of a caught exception; its wording is not modelled. */
  const ExceptionText: string := "<exception>"

  function ErrorDir(p: Paths): string { PathJoin(p.save, "Erreur_tri") }

  function TargetPath(p: Paths, t: Target): string {
    match t
    case PhotoDir(pl) => PathJoin(PathJoin(p.photos, pl.year), pl.name)
    case VideoDir(pl) => PathJoin(PathJoin(p.videos, pl.year), pl.name)
    case QuarantineDir(n) => PathJoin(ErrorDir(p), n)
  }

  function StopEntry(): LogEntry { LogEntry(STOP, "Opération interrompue par l'utilisateur", "") }

  /** `s` is not empty and `x` is its last element. */
  predicate EndsWith<T(==)>(s: seq<T>, x: T) {
    s != [] && s[|s| - 1] == x
  }

  // ---------------------------------------------------------------------
  // Log and progress bookkeeping
  // ---------------------------------------------------------------------

  /** How many entries of the log carry `code`. */
  function CountCode(log: seq<LogEntry>, code: Code): nat {
    if log == [] then 0
    else CountCode(log[..|log| - 1], code) + (if log[|log| - 1].code == code then 1 else 0)
  }

  lemma {:induction false} CountCodeAppend(a: seq<LogEntry>, b: seq<LogEntry>, code: Code)
    ensures CountCode(a + b, code) == CountCode(a, code) + CountCode(b, code)
    decreases |b|
  {
    if b != [] {
      var b' := b[..|b| - 1];
      assert (a + b)[..|a + b| - 1] == a + b';
      CountCodeAppend(a, b', code);
    } else {
      assert a + b == a;
    }
  }

  /** `int(done_ops / total_ops * 100)`, computed on integers. */
  function Percent(done: nat, total: nat): nat
    requires total > 0
  {
    done * 100 / total
  }

  lemma {:induction false} MulLess(a: int, b: int, t: int)
    requires t > 0 && a * t < b * t
    ensures a < b
  {
    assert (b - a) * t == b * t - a * t;
  }

  lemma {:induction false} DivMonotone(x: nat, y: nat, t: nat)
    requires x <= y && t > 0
    ensures x / t <= y / t
  {
    var q1 := x / t;
    var q2 := y / t;
    assert x == q1 * t + x % t;
    assert y == q2 * t + y % t;
    assert (q2 + 1) * t == q2 * t + t;
    MulLess(q1, q2 + 1, t);
  }

  /** More work done never shows a smaller percentage. */
  lemma {:induction false} PercentMonotone(a: nat, b: nat, total: nat)
    requires a <= b && total > 0
    ensures Percent(a, total) <= Percent(b, total)
  {
    DivMonotone(a * 100, b * 100, total);
  }

  /** The percentage never passes 100 while the work stays within the total. */
  lemma {:induction false} PercentBounded(done: nat, total: nat)
    requires done <= total && total > 0
    ensures Percent(done, total) <= 100
    ensures done == total ==> Percent(done, total) == 100
  {
    PercentMonotone(done, total, total);
    assert total * 100 / total == 100;
  }

  predicate Nondecreasing(s: seq<nat>) {
    forall i, j | 0 <= i < j < |s| :: s[i] <= s[j]
  }

  lemma {:induction false} NondecreasingAppend(a: seq<nat>, b: seq<nat>)
    requires Nondecreasing(a) && Nondecreasing(b)
    requires a != [] && b != [] ==> a[|a| - 1] <= b[0]
    ensures Nondecreasing(a + b)
  {
    var s := a + b;
    forall i, j | 0 <= i < j < |s| ensures s[i] <= s[j] {
      if j >= |a| && i < |a| {
        assert s[i] == a[i] <= a[|a| - 1];
        assert b[0] <= b[j - |a|];
      }
    }
  }

  /**
   * The cancel flag was clear at the `n` checks numbered `base` to
   * `base + n - 1`; `cancelled` holds the numbers of the reads that saw
   * the flag set.
   */
  predicate Uncancelled(cancelled: iset<nat>, base: nat, n: nat) {
    n == 0 || (base + n - 1 !in cancelled && Uncancelled(cancelled, base, n - 1))
  }

  lemma {:induction false} UncancelledAt(cancelled: iset<nat>, base: nat, n: nat)
    ensures Uncancelled(cancelled, base, n) <==> forall k: nat | base <= k < base + n :: k !in cancelled
  {
    if n > 0 { UncancelledAt(cancelled, base, n - 1); }
  }

  lemma {:induction false} CancelledWithin(cancelled: iset<nat>, base: nat, k: nat, n: nat)
    requires k < n && base + k in cancelled
    ensures !Uncancelled(cancelled, base, n)
  {
    UncancelledAt(cancelled, base, n);
  }

  /** The progress values reported after each of the first `k` rename steps. */
  function Marks(k: nat, total: nat): (r: seq<nat>)
    requires k == 0 || total > 0
    ensures |r| == k
  {
    if k == 0 then [] else Marks(k - 1, total) + [Percent(k, total)]
  }

  lemma {:induction false} MarksAt(k: nat, total: nat)
    requires k == 0 || total > 0
    ensures forall j | 0 <= j < k :: Marks(k, total)[j] == Percent(j + 1, total)
  {
    if k > 0 { MarksAt(k - 1, total); }
  }

  /** One step more never shows less: the marks only go up. */
  lemma {:induction false} MarksNondecreasing(k: nat, total: nat)
    requires k == 0 || total > 0
    ensures Nondecreasing(Marks(k, total))
  {
    if k > 0 {
      MarksNondecreasing(k - 1, total);
      var m := Marks(k - 1, total);
      if k > 1 {
        MarksAt(k - 1, total);
        PercentMonotone(k - 1, k, total);
      }
      NondecreasingAppend(m, [Percent(k, total)]);
    }
  }

  // ---------------------------------------------------------------------
  // Phase 1: renaming
  // ---------------------------------------------------------------------

  function Elems(s: seq<string>): set<string> { set x | x in s }

  /**
   * The staging names while the rename loop is at `files[i]`: the names
   * kept for the first `i` files and the files not yet reached.
   */
  function NamesAt(handled: seq<string>, files: seq<string>, i: nat): set<string>
    requires i <= |handled| && i <= |files|
  {
    (set a | 0 <= a < i :: handled[a]) + (set j | i <= j < |files| :: files[j])
  }

  /** Handling `files[|handled|]` under the name `kept` swaps that file's name for `kept`. */
  lemma {:induction false} NamesAtStep(handled: seq<string>, files: seq<string>, kept: string)
    requires Distinct(files) && |handled| < |files|
    requires forall a, j | 0 <= a < |handled| <= j < |files| :: handled[a] != files[j]
    ensures var i := |handled|;
      NamesAt(handled + [kept], files, i + 1) == (NamesAt(handled, files, i) - {files[i]}) + {kept}
  {
    var i := |handled|;
    var h' := handled + [kept];
    var l := NamesAt(h', files, i + 1);
    var r := (NamesAt(handled, files, i) - {files[i]}) + {kept};
    forall x | x in l ensures x in r {
      if x != kept {
        if a :| 0 <= a < i + 1 && h'[a] == x {
          assert a < i && x == handled[a] && x != files[i];
        } else {
          var j :| i + 1 <= j < |files| && files[j] == x;
          assert x != files[i];
        }
      }
    }
    forall x | x in r ensures x in l {
      if x != kept {
        assert x in NamesAt(handled, files, i) && x != files[i];
        if a :| 0 <= a < i && handled[a] == x {
          assert h'[a] == x;
          assert x in (set a | 0 <= a < i + 1 :: h'[a]);
        } else {
          var j :| i <= j < |files| && files[j] == x;
          assert j != i;
          assert x in (set j | i + 1 <= j < |files| :: files[j]);
        }
      } else {
        assert h'[i] == x;
      }
    }
  }

  /** The staging names before the first file, and after the last. */
  lemma {:induction false} NamesAtEnds(handled: seq<string>, files: seq<string>)
    ensures NamesAt(handled, files, 0) == Elems(files)
    ensures |handled| == |files| ==> NamesAt(handled, files, |files|) == Elems(handled)
  {
    forall x | x in Elems(files) ensures x in NamesAt(handled, files, 0) {
      var j :| 0 <= j < |files| && files[j] == x;
    }
    if |handled| == |files| {
      forall x | x in Elems(handled) ensures x in NamesAt(handled, files, |files|) {
        var a :| 0 <= a < |handled| && handled[a] == x;
      }
    }
  }

  /** The names recorded so far for the first `i` files do not depend on the later entries. */
  lemma {:induction false} NamesAtPrefix(h: seq<string>, h': seq<string>, files: seq<string>, i: nat)
    requires i <= |h| && i <= |h'| && i <= |files|
    requires forall a | 0 <= a < i :: h[a] == h'[a]
    ensures NamesAt(h, files, i) == NamesAt(h', files, i)
  {
    forall x | x in NamesAt(h, files, i) ensures x in NamesAt(h', files, i) {
      if a :| 0 <= a < i && h[a] == x {
        assert h'[a] == x;
      }
    }
    forall x | x in NamesAt(h', files, i) ensures x in NamesAt(h, files, i) {
      if a :| 0 <= a < i && h'[a] == x {
        assert h[a] == x;
      }
    }
  }

  /** The rename is attempted and goes through: a new name, free on disk, and no error. */
  predicate RenameTaken(f: string, nn: string, names: set<string>, renameOk: (string, string) -> bool) {
    nn != f && nn !in names && renameOk(f, nn)
  }

  /**
   * The state of the staging directory while the rename loop is at
   * `files[|handled|]`: the handled files under the names recorded for them,
   * the rest under their own names, no name twice.
   */
  ghost predicate RenameInv(staging0: map<string, MediaFile>, staging: map<string, MediaFile>,
                            files: seq<string>, handled: seq<string>) {
    && |handled| <= |files|
    && staging0.Keys == Elems(files)
    && Distinct(handled)
    && (forall a, j | 0 <= a < |handled| <= j < |files| :: handled[a] != files[j])
    && staging.Keys == NamesAt(handled, files, |handled|)
    && (forall j | 0 <= j < |handled| :: staging[handled[j]] == staging0[files[j]])
    && (forall j | |handled| <= j < |files| :: staging[files[j]] == staging0[files[j]])
  }

  /** One rename step, kept or taken, keeps the invariant. */
  lemma {:induction false} RenameStep(staging0: map<string, MediaFile>, staging: map<string, MediaFile>,
                   staging': map<string, MediaFile>, files: seq<string>, handled: seq<string>, kept: string)
    requires Distinct(files) && RenameInv(staging0, staging, files, handled) && |handled| < |files|
    requires var f := files[|handled|];
      || (kept == f && staging' == staging)
      || (kept != f && kept !in staging && f in staging && staging' == (staging - {f})[kept := staging[f]])
    ensures RenameInv(staging0, staging', files, handled + [kept])
  {
    NamesAtStep(handled, files, kept);
    RenameStepNames(staging, files, handled, kept);
    RenameStepValues(staging0, staging, staging', files, handled, kept);
  }

  /** The names recorded so far stay distinct and apart from the files still to come. */
  lemma {:induction false} RenameStepNames(staging: map<string, MediaFile>, files: seq<string>,
                                           handled: seq<string>, kept: string)
    requires Distinct(files) && |handled| < |files| && Distinct(handled)
    requires forall a, j | 0 <= a < |handled| <= j < |files| :: handled[a] != files[j]
    requires staging.Keys == NamesAt(handled, files, |handled|)
    requires kept == files[|handled|] || kept !in staging
    ensures Distinct(handled + [kept])
    ensures forall a, j | 0 <= a < |handled| + 1 <= j < |files| :: (handled + [kept])[a] != files[j]
  {
    var i := |handled|;
    var f := files[i];
    var h' := handled + [kept];
    forall a, b | 0 <= a < b < |h'| ensures h'[a] != h'[b] {
      if b == i {
        assert h'[a] == handled[a];
        if kept != f { assert handled[a] in NamesAt(handled, files, i); }
      }
    }
    forall a, j | 0 <= a < |h'| <= j < |files| ensures h'[a] != files[j] {
      if a == i && kept != f { assert files[j] in NamesAt(handled, files, i); }
    }
  }

  /** Every file, handled or not, still holds its original contents under its current name. */
  lemma {:induction false} RenameStepValues(staging0: map<string, MediaFile>, staging: map<string, MediaFile>,
                   staging': map<string, MediaFile>, files: seq<string>, handled: seq<string>, kept: string)
    requires Distinct(files) && RenameInv(staging0, staging, files, handled) && |handled| < |files|
    requires var f := files[|handled|];
      || (kept == f && staging' == staging)
      || (kept != f && kept !in staging && f in staging && staging' == (staging - {f})[kept := staging[f]])
    requires NamesAt(handled + [kept], files, |handled| + 1) == (staging.Keys - {files[|handled|]}) + {kept}
    ensures staging'.Keys == NamesAt(handled + [kept], files, |handled| + 1)
    ensures forall j | 0 <= j < |handled| + 1 ::
              (handled + [kept])[j] in staging' && staging'[(handled + [kept])[j]] == staging0[files[j]]
    ensures forall j | |handled| + 1 <= j < |files| :: files[j] in staging' && staging'[files[j]] == staging0[files[j]]
  {
    var i := |handled|;
    var f := files[i];
    var h' := handled + [kept];
    assert f in staging;
    forall j | 0 <= j < |h'| ensures h'[j] in staging' && staging'[h'[j]] == staging0[files[j]] {
      if j < i {
        assert handled[j] in staging;
        if kept != f { assert handled[j] != f; }
      }
    }
    forall j | i + 1 <= j < |files| ensures files[j] in staging' && staging'[files[j]] == staging0[files[j]] {
      assert files[j] in staging;
    }
  }

  /**
   * `os.rename(save\f, save\nn)` on the staging directory: it fails when
   * the source is missing or a file of the target name exists, and
   * otherwise as `renameOk` says.  Names are compared exactly, letter case
   * included.  The result is the new directory and the name the file now
   * has.
   */
  function Rename(staging: map<string, MediaFile>, f: string, nn: string,
                  renameOk: (string, string) -> bool): (r: (map<string, MediaFile>, string))
    ensures r.1 != f <==> nn != f && nn !in staging && f in staging && renameOk(f, nn)
    ensures r.1 == f ==> r.0 == staging
    ensures r.1 != f ==> r.1 == nn && r.0 == (staging - {f})[nn := staging[f]]
  {
    if nn != f && nn !in staging && f in staging && renameOk(f, nn) then ((staging - {f})[nn := staging[f]], nn)
    else (staging, f)
  }

  /** A rename of the next file keeps the invariant and keeps the name the decision rule gives. */
  lemma {:induction false} RenameFileStep(staging0: map<string, MediaFile>, staging: map<string, MediaFile>, files: seq<string>,
                       normal: seq<string>, handled: seq<string>, renameOk: (string, string) -> bool)
    requires Distinct(files) && RenameInv(staging0, staging, files, handled)
    requires |handled| < |files| == |normal|
    ensures var i := |handled|; var r := Rename(staging, files[i], normal[i], renameOk);
      && RenameInv(staging0, r.0, files, handled + [r.1])
      && r.1 == if RenameTaken(files[i], normal[i], NamesAt(handled, files, i), renameOk) then normal[i] else files[i]
  {
    var i := |handled|;
    var r := Rename(staging, files[i], normal[i], renameOk);
    RenameStep(staging0, staging, r.0, files, handled, r.1);
  }

  /** A log line of the rename loop, from the name, its normal form and the name kept. */
  function RenameEntry(f: string, nn: string, kept: string): LogEntry {
    if nn == f then LogEntry(OK, f, "")
    else if kept == nn then LogEntry(RENAMED, f, nn)
    else LogEntry(ERREUR, "Impossible de renommer " + f, ExceptionText)
  }

  /**
   * The normaliser applied to each name of the listing.  The name kept for
   * `files[j]` is decided against `NormalForms(files, normalize)[j]`.
   */
  function NormalForms(files: seq<string>, normalize: string -> string): (r: seq<string>)
    ensures |r| == |files|
  {
    if files == [] then []
    else NormalForms(files[..|files| - 1], normalize) + [normalize(files[|files| - 1])]
  }

  /** `_normalize_filename` as the driver calls it, against the listing of the tool's own directory. */
  function NormalOf(listing: set<string>): string -> string {
    f => NormalizeName(f, listing)
  }

  /** The normal form recorded for `files[j]` is the driver's `_normalize_filename(files[j], ext)`. */
  lemma {:induction false} NormalOfAt(files: seq<string>, listing: set<string>, j: nat)
    requires j < |files|
    ensures NormalForms(files, NormalOf(listing))[j] == NormalizeName(files[j], listing)
  {
    NormalFormsAt(files, NormalOf(listing), j);
  }

  lemma {:induction false} NormalFormsAt(files: seq<string>, normalize: string -> string, j: nat)
    requires j < |files|
    ensures NormalForms(files, normalize)[j] == normalize(files[j])
  {
    if j < |files| - 1 {
      var init := files[..|files| - 1];
      NormalFormsAt(init, normalize, j);
      assert init[j] == files[j];
    }
  }

  /**
   * Each handled file keeps its name unless its normal form `normal[j]`
   * differs, is free in the directory as it stands at that point, and the
   * rename succeeds.
   */
  predicate RenameDecided(files: seq<string>, normal: seq<string>, renameOk: (string, string) -> bool,
                          renamed: seq<string>)
    requires |renamed| <= |files| == |normal|
  {
    forall j {:trigger renamed[j]} | 0 <= j < |renamed| ::
      renamed[j] == if RenameTaken(files[j], normal[j], NamesAt(renamed, files, j), renameOk)
                    then normal[j] else files[j]
  }

  lemma {:induction false} RenameDecidedStep(files: seq<string>, normal: seq<string>, renameOk: (string, string) -> bool,
                          renamed: seq<string>, kept: string)
    requires |renamed| < |files| == |normal| && RenameDecided(files, normal, renameOk, renamed)
    requires var i := |renamed|;
      kept == if RenameTaken(files[i], normal[i], NamesAt(renamed, files, i), renameOk) then normal[i] else files[i]
    ensures RenameDecided(files, normal, renameOk, renamed + [kept])
  {
    var r := renamed + [kept];
    forall j | 0 <= j <= |renamed| ensures NamesAt(r, files, j) == NamesAt(renamed, files, j) {
      NamesAtPrefix(r, renamed, files, j);
    }
  }

  /** The rename loop's log: the step-1 banner, then one entry per handled file. */
  predicate RenameLogged(files: seq<string>, normal: seq<string>, renamed: seq<string>, log: seq<LogEntry>)
    requires |renamed| <= |files| == |normal|
  {
    && |log| == 1 + |renamed|
    && log[0] == Step1Entry()
    && (forall j | 1 <= j < |log| :: log[j] == RenameEntry(files[j - 1], normal[j - 1], renamed[j - 1]))
    && CountCode(log, DUPLICAT) == 0 && CountCode(log, FIN) == 0 && CountCode(log, STOP) == 0
  }

  lemma {:induction false} RenameLoggedStep(files: seq<string>, normal: seq<string>, renamed: seq<string>, log: seq<LogEntry>,
                         kept: string)
    requires |renamed| < |files| == |normal| && RenameLogged(files, normal, renamed, log)
    ensures var i := |renamed|;
      RenameLogged(files, normal, renamed + [kept], log + [RenameEntry(files[i], normal[i], kept)])
  {
    var i := |renamed|;
    var e := RenameEntry(files[i], normal[i], kept);
    CountCodeAppend(log, [e], DUPLICAT);
    CountCodeAppend(log, [e], FIN);
    CountCodeAppend(log, [e], STOP);
  }

  /** The first loop's state after `k` files: the staging folder, the names kept, the log, the progress. */
  datatype RenameState = RenameState(staging: map<string, MediaFile>, renamed: seq<string>,
                                     log: seq<LogEntry>, progress: seq<nat>)

  function Step1Entry(): LogEntry { LogEntry(INFO, "Étape 1 : Renommage des fichiers...", "") }

  /** One pass of the rename loop, for `files[|p.renamed|]` against its normal form. */
  function RenameNextState(files: seq<string>, normal: seq<string>, renameOk: (string, string) -> bool,
                           total: nat, p: RenameState): (r: RenameState)
    requires |p.renamed| < |files| == |normal| && total > 0
    ensures |r.renamed| == |p.renamed| + 1
  {
    var i := |p.renamed|;
    var r := Rename(p.staging, files[i], normal[i], renameOk);
    RenameState(r.0, p.renamed + [r.1], p.log + [RenameEntry(files[i], normal[i], r.1)],
                p.progress + [Percent(i + 1, total)])
  }

  /** The rename loop run over the first `k` files of the listing. */
  function RenamePrefix(staging0: map<string, MediaFile>, files: seq<string>, normal: seq<string>,
                        renameOk: (string, string) -> bool, total: nat, k: nat): (r: RenameState)
    requires k <= |files| == |normal| && (k == 0 || total > 0)
    ensures |r.renamed| == k
  {
    if k == 0 then RenameState(staging0, [], [Step1Entry()], [])
    else RenameNextState(files, normal, renameOk, total, RenamePrefix(staging0, files, normal, renameOk, total, k - 1))
  }

  /** What the rename loop keeps true from one file to the next. */
  ghost predicate RenameStateInv(staging0: map<string, MediaFile>, files: seq<string>, normal: seq<string>,
                                 renameOk: (string, string) -> bool, total: nat, p: RenameState)
    requires |normal| == |files|
  {
    && RenameInv(staging0, p.staging, files, p.renamed)
    && RenameDecided(files, normal, renameOk, p.renamed)
    && RenameLogged(files, normal, p.renamed, p.log)
    && (|files| > 0 ==> total > 0 && p.progress == Marks(|p.renamed|, total))
  }

  lemma {:induction false} RenameNextInv(staging0: map<string, MediaFile>, files: seq<string>, normal: seq<string>,
                      renameOk: (string, string) -> bool, total: nat, k: nat)
    requires Distinct(files) && 0 < k <= |files| == |normal| && total > 0
    requires RenameStateInv(staging0, files, normal, renameOk, total, RenamePrefix(staging0, files, normal, renameOk, total, k - 1))
    ensures RenameStateInv(staging0, files, normal, renameOk, total, RenamePrefix(staging0, files, normal, renameOk, total, k))
  {
    var p := RenamePrefix(staging0, files, normal, renameOk, total, k - 1);
    var i := |p.renamed|;
    var r := Rename(p.staging, files[i], normal[i], renameOk);
    RenameFileStep(staging0, p.staging, files, normal, p.renamed, renameOk);
    RenameDecidedStep(files, normal, renameOk, p.renamed, r.1);
    RenameLoggedStep(files, normal, p.renamed, p.log, r.1);
  }

  /**
   * After any number of files: the staging folder holds every file once
   * under the name recorded for it, each name was chosen by the rename
   * rule, the log has one line per file, and the progress one mark per file.
   */
  lemma {:induction false} RenamePrefixInv(staging0: map<string, MediaFile>, files: seq<string>,
                                           normal: seq<string>, renameOk: (string, string) -> bool,
                                           total: nat, k: nat)
    requires Distinct(files) && Elems(files) == staging0.Keys
    requires k <= |files| == |normal| && total == 3 * |files|
    ensures RenameStateInv(staging0, files, normal, renameOk, total, RenamePrefix(staging0, files, normal, renameOk, total, k))
  {
    if k == 0 {
      NamesAtEnds([], files);
      assert CountCode([Step1Entry()], DUPLICAT) == 0 && CountCode([Step1Entry()], FIN) == 0
        && CountCode([Step1Entry()], STOP) == 0 by {
        assert [Step1Entry()][..0] == [];
      }
    } else {
      RenamePrefixInv(staging0, files, normal, renameOk, total, k - 1);
      RenameNextInv(staging0, files, normal, renameOk, total, k);
    }
  }

  /**
   * The rename loop over `files`, the sorted listing.  `os.rename` refuses
   * a target name already present; `renameOk` decides every other
   * failure.  the flag read before `files[i]` is set when
   * `i in cancelled`, and
   * `normalize` is `_normalize_filename` as the driver calls it.  The result
   * records, for each handled file, the name it now has.
   */
  method RenameAll(staging0: map<string, MediaFile>, files: seq<string>, normalize: string -> string,
                   renameOk: (string, string) -> bool, cancelled: iset<nat>, total: nat)
    returns (staging: map<string, MediaFile>, renamed: seq<string>, log: seq<LogEntry>,
             progress: seq<nat>, stopped: bool)
    requires Distinct(files) && Elems(files) == staging0.Keys
    requires total == 3 * |files|
    ensures |renamed| <= |files|
    ensures stopped <==> |renamed| < |files|
    ensures stopped ==> |renamed| in cancelled
    ensures Uncancelled(cancelled, 0, |renamed|)
    ensures var p := RenamePrefix(staging0, files, NormalForms(files, normalize), renameOk, total, |renamed|);
      && staging == p.staging && renamed == p.renamed && progress == p.progress
      && log == if stopped then p.log + [StopEntry()] else p.log
  {
    staging := staging0;
    renamed := [];
    log := [Step1Entry()];
    progress := [];
    stopped := false;
    ghost var normal := NormalForms(files, normalize);
    while |renamed| < |files|
      invariant |renamed| <= |files| && !stopped
      invariant Uncancelled(cancelled, 0, |renamed|)
      invariant RenameState(staging, renamed, log, progress)
        == RenamePrefix(staging0, files, normal, renameOk, total, |renamed|)
      decreases |files| - |renamed|
    {
      var i := |renamed|;
      if i in cancelled {
        log := log + [StopEntry()];
        stopped := true;
        return;
      }
      assert Uncancelled(cancelled, 0, i + 1);
      ghost var before := RenameState(staging, renamed, log, progress);
      var f := files[i];
      var nn := normalize(f);
      NormalFormsAt(files, normalize, i);
      assert nn == normal[i];
      var r := Rename(staging, f, nn, renameOk);
      staging := r.0;
      log := log + [RenameEntry(f, nn, r.1)];
      renamed := renamed + [r.1];
      progress := progress + [Percent(i + 1, total)];
      assert RenameState(staging, renamed, log, progress) == RenameNextState(files, normal, renameOk, total, before);
    }
  }

  /**
   * The log of the first loop as a whole: the banner, one line per handled
   * file giving its name, its normal form and the name kept, and, when the
   * loop was stopped, exactly one `[STOP]` line, which comes last.
   */
  ghost predicate PhaseOneLogged(files: seq<string>, normal: seq<string>, renamed: seq<string>,
                                 log: seq<LogEntry>, stopped: bool)
    requires |renamed| <= |files| == |normal|
  {
    && |log| == |renamed| + (if stopped then 2 else 1) && log[0] == Step1Entry()
    && (forall j | 0 <= j < |renamed| :: log[j + 1] == RenameEntry(files[j], normal[j], renamed[j]))
    && (stopped ==> log[|log| - 1] == StopEntry())
    && CountCode(log, STOP) == (if stopped then 1 else 0)
  }

  /**
   * Phase 1 as the driver uses it.  It stops exactly when the flag is raised
   * at one of the reads, after the files before that read.  Every handled
   * file keeps its contents under the name recorded for it, which is its
   * normal form when that differs, is free in the directory as it then
   * stands and the rename goes through, and its own name otherwise; the
   * files not reached stay as they were.  The log is the banner, one line
   * per handled file and, when stopped, one `[STOP]` line.
   */
  method RenamePhase(staging0: map<string, MediaFile>, files: seq<string>, listing: set<string>,
                     renameOk: (string, string) -> bool, cancelled: iset<nat>)
    returns (staging: map<string, MediaFile>, renamed: seq<string>, log: seq<LogEntry>,
             progress: seq<nat>, stopped: bool)
    requires Distinct(files) && Elems(files) == staging0.Keys
    ensures |renamed| <= |files| && (stopped <==> |renamed| < |files|)
    ensures stopped <==> exists k: nat | k < |files| :: k in cancelled
    ensures stopped ==> |renamed| in cancelled
    ensures Uncancelled(cancelled, 0, |renamed|)
    ensures forall j | 0 <= j < |renamed| :: renamed[j] in staging && staging[renamed[j]] == staging0[files[j]]
    ensures forall j | |renamed| <= j < |files| :: files[j] in staging && staging[files[j]] == staging0[files[j]]
    ensures RenameDecided(files, NormalForms(files, NormalOf(listing)), renameOk, renamed)
    ensures PhaseOneLogged(files, NormalForms(files, NormalOf(listing)), renamed, log, stopped)
    ensures stopped ==> EndsWith(log, StopEntry())
    ensures !stopped ==> Distinct(renamed) && progress == Marks(|files|, 3 * |files|)
    ensures !stopped ==> staging.Keys == Elems(renamed)
    ensures !stopped ==> RenamedRun(staging0, listing, renameOk, files, renamed, staging)
    ensures stopped ==> StoppedRename(staging0, listing, renameOk, cancelled, files, renamed, staging)
    ensures Nondecreasing(progress) && forall k | 0 <= k < |progress| :: progress[k] <= 100
    ensures CountCode(log, DUPLICAT) == 0
  {
    staging, renamed, log, progress, stopped := RenameAll(staging0, files, NormalOf(listing), renameOk, cancelled, 3 * |files|);
    RenameOutcome(staging0, files, NormalForms(files, NormalOf(listing)), renameOk, cancelled,
                  RenameState(staging, renamed, log, progress), log, stopped);
    if stopped {
      StoppedRenameOf(staging0, listing, renameOk, cancelled, files, renamed, staging);
    }
  }

  /** The facts of a cut-short rename loop, gathered as `StoppedRename`. */
  lemma {:induction false} StoppedRenameOf(s0: map<string, MediaFile>, appListing: set<string>,
                                           renameOk: (string, string) -> bool, cancelled: iset<nat>,
                                           files: seq<string>, renamed: seq<string>, staged: map<string, MediaFile>)
    requires Elems(files) == s0.Keys
    requires |renamed| < |files| && |renamed| in cancelled && Uncancelled(cancelled, 0, |renamed|)
    requires RenameDecided(files, NormalForms(files, NormalOf(appListing)), renameOk, renamed)
    requires forall j | 0 <= j < |renamed| :: renamed[j] in staged && staged[renamed[j]] == s0[files[j]]
    requires forall j | |renamed| <= j < |files| :: files[j] in staged && staged[files[j]] == s0[files[j]]
    ensures StoppedRename(s0, appListing, renameOk, cancelled, files, renamed, staged)
  {
    assert forall j | 0 <= j < |files| :: files[j] in s0 by {
      forall j | 0 <= j < |files| ensures files[j] in s0 {
        assert files[j] in Elems(files);
      }
    }
  }

  /**
   * What the rename loop's result, for any normal forms, gives the driver:
   * the invariant of the loop at the point it stopped, and the log.
   */
  lemma {:induction false} RenameOutcome(staging0: map<string, MediaFile>, files: seq<string>, normal: seq<string>,
                      renameOk: (string, string) -> bool, cancelled: iset<nat>,
                      st: RenameState, log: seq<LogEntry>, stopped: bool)
    requires Distinct(files) && Elems(files) == staging0.Keys && |normal| == |files|
    requires |st.renamed| <= |files| && (stopped <==> |st.renamed| < |files|)
    requires (stopped ==> |st.renamed| in cancelled) && Uncancelled(cancelled, 0, |st.renamed|)
    requires var p := RenamePrefix(staging0, files, normal, renameOk, 3 * |files|, |st.renamed|);
      && st.staging == p.staging && st.renamed == p.renamed && st.progress == p.progress
      && log == if stopped then p.log + [StopEntry()] else p.log
    ensures stopped <==> exists k: nat | k < |files| :: k in cancelled
    ensures forall j | 0 <= j < |st.renamed| :: st.renamed[j] in st.staging && st.staging[st.renamed[j]] == staging0[files[j]]
    ensures forall j | |st.renamed| <= j < |files| :: files[j] in st.staging && st.staging[files[j]] == staging0[files[j]]
    ensures RenameDecided(files, normal, renameOk, st.renamed)
    ensures |log| == |st.renamed| + (if stopped then 2 else 1) && log[0] == Step1Entry()
    ensures forall j | 0 <= j < |st.renamed| :: log[j + 1] == RenameEntry(files[j], normal[j], st.renamed[j])
    ensures stopped ==> log[|log| - 1] == StopEntry()
    ensures CountCode(log, STOP) == if stopped then 1 else 0
    ensures !stopped ==> Distinct(st.renamed) && |st.renamed| == |files|
    ensures !stopped ==> st.progress == Marks(|files|, 3 * |files|)
    ensures !stopped ==> st.staging.Keys == Elems(st.renamed)
    ensures Nondecreasing(st.progress) && forall k | 0 <= k < |st.progress| :: st.progress[k] <= 100
    ensures CountCode(log, DUPLICAT) == 0
  {
    var n := |files|;
    StopsIffCancelled(cancelled, |st.renamed|, n, stopped);
    RenamePrefixFacts(staging0, files, normal, renameOk, |st.renamed|);
    RenamePrefixFiles(staging0, files, normal, renameOk, |st.renamed|);
    RenameOutcomeLog(staging0, files, normal, renameOk, |st.renamed|, log, stopped);
  }

  /** The log of the rename loop, with the `[STOP]` line when it was cut short. */
  lemma {:induction false} RenameOutcomeLog(staging0: map<string, MediaFile>, files: seq<string>, normal: seq<string>,
                      renameOk: (string, string) -> bool, k: nat, log: seq<LogEntry>, stopped: bool)
    requires Distinct(files) && Elems(files) == staging0.Keys
    requires k <= |files| == |normal|
    requires var p := RenamePrefix(staging0, files, normal, renameOk, 3 * |files|, k);
      log == if stopped then p.log + [StopEntry()] else p.log
    ensures var p := RenamePrefix(staging0, files, normal, renameOk, 3 * |files|, k);
      && |log| == k + (if stopped then 2 else 1) && log[0] == Step1Entry()
      && (forall j | 0 <= j < k :: log[j + 1] == RenameEntry(files[j], normal[j], p.renamed[j]))
      && (stopped ==> log[|log| - 1] == StopEntry())
      && CountCode(log, STOP) == (if stopped then 1 else 0)
      && CountCode(log, DUPLICAT) == 0
  {
    var p := RenamePrefix(staging0, files, normal, renameOk, 3 * |files|, k);
    RenamePrefixLogged(staging0, files, normal, renameOk, k);
    if stopped {
      StoppedLog(p.log);
      assert forall j | 0 <= j < |p.log| :: log[j] == p.log[j];
    }
  }

  lemma {:induction false} RenamePrefixLogged(staging0: map<string, MediaFile>, files: seq<string>, normal: seq<string>,
                          renameOk: (string, string) -> bool, k: nat)
    requires Distinct(files) && Elems(files) == staging0.Keys
    requires k <= |files| == |normal|
    ensures var p := RenamePrefix(staging0, files, normal, renameOk, 3 * |files|, k);
      RenameLogged(files, normal, p.renamed, p.log)
  {
    RenamePrefixInv(staging0, files, normal, renameOk, 3 * |files|, k);
  }

  /** After `k` files: the handled ones under their recorded names, the others untouched. */
  lemma {:induction false} RenamePrefixFiles(staging0: map<string, MediaFile>, files: seq<string>, normal: seq<string>,
                          renameOk: (string, string) -> bool, k: nat)
    requires Distinct(files) && Elems(files) == staging0.Keys
    requires k <= |files| == |normal|
    ensures var p := RenamePrefix(staging0, files, normal, renameOk, 3 * |files|, k);
      && RenameDecided(files, normal, renameOk, p.renamed)
      && (forall j | 0 <= j < k :: p.renamed[j] in p.staging && p.staging[p.renamed[j]] == staging0[files[j]])
      && (forall j | k <= j < |files| :: files[j] in p.staging && p.staging[files[j]] == staging0[files[j]])
  {
    var p := RenamePrefix(staging0, files, normal, renameOk, 3 * |files|, k);
    RenamePrefixInv(staging0, files, normal, renameOk, 3 * |files|, k);
    forall j | 0 <= j < k ensures p.renamed[j] in p.staging {
      assert p.renamed[j] in (set a | 0 <= a < k :: p.renamed[a]);
    }
    forall j | k <= j < |files| ensures files[j] in p.staging {
      assert files[j] in (set i | k <= i < |files| :: files[i]);
    }
  }

  /** The parts of the rename loop's invariant the driver relies on, after any number of files. */
  lemma {:induction false} RenamePrefixFacts(staging0: map<string, MediaFile>, files: seq<string>, normal: seq<string>,
                          renameOk: (string, string) -> bool, k: nat)
    requires Distinct(files) && Elems(files) == staging0.Keys
    requires k <= |files| == |normal|
    ensures var p := RenamePrefix(staging0, files, normal, renameOk, 3 * |files|, k);
      && p.log != [] && CountCode(p.log, DUPLICAT) == 0
      && Nondecreasing(p.progress) && (forall j | 0 <= j < |p.progress| :: p.progress[j] <= 100)
      && (k == |files| ==> p.progress == Marks(k, 3 * k) && Distinct(p.renamed) && p.staging.Keys == Elems(p.renamed))
  {
    var p := RenamePrefix(staging0, files, normal, renameOk, 3 * |files|, k);
    RenamePrefixInv(staging0, files, normal, renameOk, 3 * |files|, k);
    if |files| > 0 {
      MarksProgress(k, 3 * |files|);
    }
    if k == |files| {
      CompleteRename(staging0, p.staging, files, p.renamed);
    }
  }

  /** A loop that reads the flag before each of `n` steps stops exactly when one read is raised. */
  lemma {:induction false} StopsIffCancelled(cancelled: iset<nat>, r: nat, n: nat, stopped: bool)
    requires r <= n && (stopped <==> r < n) && (stopped ==> r in cancelled)
    requires Uncancelled(cancelled, 0, r)
    ensures stopped <==> exists k: nat | k < n :: k in cancelled
  {
    UncancelledAt(cancelled, 0, r);
    if stopped {
      assert r in cancelled;
    }
  }

  /** The first loop's marks never go down and never exceed 100. */
  lemma {:induction false} MarksProgress(k: nat, total: nat)
    requires k <= total
    ensures var m := Marks(k, total); Nondecreasing(m) && forall j | 0 <= j < |m| :: m[j] <= 100
  {
    if k > 0 {
      MarksNondecreasing(k, total);
      MarksBounded(k, total);
    }
  }

  /** A log cut short by the user ends with one more `[STOP]` line and no more duplicate lines. */
  lemma {:induction false} StoppedLog(pre: seq<LogEntry>)
    ensures var log := pre + [StopEntry()]; log[|log| - 1] == StopEntry()
    ensures CountCode(pre + [StopEntry()], DUPLICAT) == CountCode(pre, DUPLICAT)
    ensures CountCode(pre + [StopEntry()], STOP) == CountCode(pre, STOP) + 1
  {
    assert (pre + [StopEntry()])[..|pre|] == pre;
  }

  /** Once every file is handled, the staging folder holds exactly the new names. */
  lemma {:induction false} CompleteRename(staging0: map<string, MediaFile>, staging: map<string, MediaFile>,
                       files: seq<string>, renamed: seq<string>)
    requires RenameInv(staging0, staging, files, renamed) && |renamed| == |files|
    ensures Distinct(renamed) && staging.Keys == Elems(renamed)
  {
    NamesAtEnds(renamed, files);
  }

  // ---------------------------------------------------------------------
  // Phase 2: duplicates
  // ---------------------------------------------------------------------

  /** `seen_images` and `seen_videos`, in insertion order. */
  datatype Seen = Seen(images: seq<(string, Hash)>, videos: seq<(string, string)>)

  /** The outcome of the duplicate search for one file. */
  datatype Check = Duplicate(of: string) | Kept | Unreadable | Unchecked

  /**
   * The duplicate search: a `.jpg` is compared, straight and turned, with
   * the retained images in insertion order; a `.mp4` is compared by digest
   * with the retained videos; other extensions are not searched.
   */
  function DuplicateCheck(ext: string, f: MediaFile, seen: Seen): (r: Check)
    ensures r.Duplicate? ==> r.of in Keys(seen.images) + Keys(seen.videos)
  {
    if ext == ".jpg" then
      match f.phash
      case None => Unreadable
      case Some(h) =>
        match FirstSimilar(h, f.rotations, seen.images)
        case Some(k) => Duplicate(seen.images[k].0)
        case None => Kept
    else if ext == ".mp4" then
      match FirstDigest(f.md5, seen.videos)
      case Some(k) => Duplicate(seen.videos[k].0)
      case None => Kept
    else Unchecked
  }

  /**
   * What the search finds: a `.jpg` is a duplicate exactly when one of the
   * retained images matches it, and it is reported as a copy of the first
   * of them; a `.mp4` likewise for the first video with the same digest; a
   * `.jpg` without hash is unreadable; other extensions are not searched.
   */
  lemma {:induction false} DuplicateCheckSpec(ext: string, f: MediaFile, seen: Seen)
    ensures var r := DuplicateCheck(ext, f, seen);
      && (r.Duplicate? <==>
          || (ext == ".jpg" && f.phash.Some? &&
              exists k | 0 <= k < |seen.images| :: MatchesRetained(f.phash.value, f.rotations, seen.images[k].1))
          || (ext == ".mp4" && exists k | 0 <= k < |seen.videos| :: seen.videos[k].1 == f.md5))
      && (r.Duplicate? && ext == ".jpg" ==>
          exists k | 0 <= k < |seen.images| :: seen.images[k].0 == r.of
            && MatchesRetained(f.phash.value, f.rotations, seen.images[k].1)
            && forall j | 0 <= j < k :: !MatchesRetained(f.phash.value, f.rotations, seen.images[j].1))
      && (r.Duplicate? && ext == ".mp4" ==>
          exists k | 0 <= k < |seen.videos| :: seen.videos[k].0 == r.of && seen.videos[k].1 == f.md5
            && forall j | 0 <= j < k :: seen.videos[j].1 != f.md5)
      && (r.Unreadable? <==> ext == ".jpg" && f.phash.None?)
      && (r.Unchecked? <==> ext != ".jpg" && ext != ".mp4")
  {
  }

  /** A file is retained exactly when it was searched and no copy was found. */
  lemma {:induction false} CheckKept(ext: string, f: MediaFile, seen: Seen)
    ensures var r := DuplicateCheck(ext, f, seen);
      r.Kept? <==> !r.Duplicate? && ((ext == ".jpg" && f.phash.Some?) || ext == ".mp4")
  {
  }

  // ---------------------------------------------------------------------
  // Phase 2: moves
  // ---------------------------------------------------------------------

  /** The trees after the staging file `x` was moved to `target`; a file already there is replaced. */
  function Deliver(t: Trees, x: string, target: Target, f: MediaFile): Trees {
    var t1 := t.(staging := t.staging - {x});
    match target
    case PhotoDir(p) => t1.(photos := t.photos[p := f])
    case VideoDir(p) => t1.(videos := t.videos[p := f])
    case QuarantineDir(n) => t1.(quarantine := t.quarantine[n := f])
  }

  /** The file the trees hold at `target`, if any. */
  function At(t: Trees, target: Target): Option<MediaFile> {
    match target
    case PhotoDir(p) => if p in t.photos then Some(t.photos[p]) else None
    case VideoDir(p) => if p in t.videos then Some(t.videos[p]) else None
    case QuarantineDir(n) => if n in t.quarantine then Some(t.quarantine[n]) else None
  }

  /** The move leaves the moved file at its target, replacing what was there, and no other destination changes. */
  lemma {:induction false} DeliverAt(t: Trees, x: string, target: Target, f: MediaFile, other: Target)
    ensures At(Deliver(t, x, target, f), other) == if other == target then Some(f) else At(t, other)
  {
  }

  /** A photo-tree entry that a run may create: a canonical photo name under its own year. */
  predicate PhotoPlaced(p: Place) { MatchesPattern(p.name, Photo) && p.year == PatternYear(p.name, Photo) }

  predicate VideoPlaced(p: Place) { MatchesPattern(p.name, Video) && p.year == PatternYear(p.name, Video) }

  /**
   * What a step may do to the destination trees: keep every entry, write
   * only well-placed ones, and never remove the quarantine directory.
   */
  predicate Grows(t: Trees, t': Trees) {
    && t.photos.Keys <= t'.photos.Keys
    && t.videos.Keys <= t'.videos.Keys
    && t.quarantine.Keys <= t'.quarantine.Keys
    && t'.quarantineExists == t.quarantineExists
    && (forall p | p in t'.photos && (p !in t.photos || t'.photos[p] != t.photos[p]) :: PhotoPlaced(p))
    && (forall p | p in t'.videos && (p !in t.videos || t'.videos[p] != t.videos[p]) :: VideoPlaced(p))
  }

  /** Staging loses at most `x` and changes no file of it. */
  ghost predicate StagingShrinks(t: Trees, t': Trees, x: string) {
    && (forall y | y != x :: (y in t'.staging <==> y in t.staging))
    && (forall y | y in t'.staging :: y in t.staging && t'.staging[y] == t.staging[y])
  }

  /** A destination a route can produce: dated trees only receive well-placed names. */
  predicate WellFormedTarget(target: Target) {
    && (target.PhotoDir? ==> PhotoPlaced(target.place))
    && (target.VideoDir? ==> VideoPlaced(target.place))
  }

  lemma {:induction false} DeliverGrows(t: Trees, x: string, target: Target, f: MediaFile)
    requires WellFormedTarget(target)
    ensures Grows(t, Deliver(t, x, target, f)) && StagingShrinks(t, Deliver(t, x, target, f), x)
  {
  }

  lemma {:induction false} GrowsRefl(t: Trees, x: string)
    ensures Grows(t, t) && StagingShrinks(t, t, x)
  {
  }

  /**
   * `shutil.move` to the destination and, when that raises, the second
   * attempt into `Erreur_tri` under the same name.
   */
  function MoveTo(x: string, name: string, f: MediaFile, target: Target, t: Trees, paths: Paths,
                  moveOk: (string, Target, Attempt) -> bool): (r: (Trees, seq<LogEntry>))
    requires WellFormedTarget(target)
    ensures Grows(t, r.0) && StagingShrinks(t, r.0, x)
    ensures moveOk(x, target, First) ==> r.0 == Deliver(t, x, target, f)
    ensures !moveOk(x, target, First) && moveOk(x, QuarantineDir(name), Retry) ==> r.0 == Deliver(t, x, QuarantineDir(name), f)
    ensures !moveOk(x, target, First) && !moveOk(x, QuarantineDir(name), Retry) ==> r.0 == t
    ensures |r.1| == 1 && (r.1[0].code == MOVE || r.1[0].code == ERREUR)
  {
    if moveOk(x, target, First) then
      DeliverGrows(t, x, target, f);
      (Deliver(t, x, target, f), [LogEntry(MOVE, name + " déplacé", TargetPath(paths, target))])
    else if moveOk(x, QuarantineDir(name), Retry) then
      DeliverGrows(t, x, QuarantineDir(name), f);
      (Deliver(t, x, QuarantineDir(name), f), [LogEntry(ERREUR, name + " déplacé vers Erreur_tri", ExceptionText)])
    else
      GrowsRefl(t, x);
      (t, [LogEntry(ERREUR, "Échec déplacement de " + name, ExceptionText)])
  }

  lemma {:induction false} NoDupEntries(s: seq<LogEntry>)
    requires forall i | 0 <= i < |s| :: s[i].code != DUPLICAT
    ensures CountCode(s, DUPLICAT) == 0
  {
    if s != [] {
      NoDupEntries(s[..|s| - 1]);
    }
  }

  function RouteName(r: Route): string
    requires !r.Unsupported?
  {
    r.name
  }

  /** The target a route moves to. */
  function RouteTarget(r: Route): Target
    requires !r.Unsupported?
  {
    match r
    case ToPhotos(y, n) => PhotoDir(Place(y, n))
    case ToVideos(y, n) => VideoDir(Place(y, n))
    case Undated(n) => QuarantineDir(n)
  }

  /**
   * The classification and move of a file that is not a duplicate:
   * canonical names and dated files to their year directory, undated
   * `.jpg`/`.mp4` to `Erreur_tri`, other extensions left in place.
   */
  function Dispatch(x: string, f: MediaFile, t: Trees, paths: Paths,
                    moveOk: (string, Target, Attempt) -> bool): (r: (Trees, seq<LogEntry>))
    ensures Grows(t, r.0) && StagingShrinks(t, r.0, x)
    ensures RouteOf(x, f).Unsupported? ==> r.0 == t
    ensures !RouteOf(x, f).Unsupported? && moveOk(x, RouteTarget(RouteOf(x, f)), First) ==>
      r.0 == Deliver(t, x, RouteTarget(RouteOf(x, f)), f)
    ensures RouteOf(x, f).Undated? && !moveOk(x, QuarantineDir(x), First) && !moveOk(x, QuarantineDir(x), Retry) ==> r.0 == t
    ensures var fate := MoveFate(x, f, moveOk);
      && (fate.Delivered? ==> r.0 == Deliver(t, x, fate.target, f))
      && (!fate.Delivered? ==> r.0 == t)
    ensures forall i | 0 <= i < |r.1| :: r.1[i].code != DUPLICAT
  {
    var route := RouteOf(x, f);
    RouteDestinationSound(x, f);
    if route.Unsupported? then
      GrowsRefl(t, x);
      (t, [LogEntry(IGNORE, x, "extension non prise en charge")])
    else
      var m := MoveTo(x, RouteName(route), f, RouteTarget(route), t, paths, moveOk);
      if route.Undated? then
        (m.0, [LogEntry(ERREUR, route.name + " déplacé vers Erreur_tri", "pas de date")] + m.1)
      else m
  }

  /**
   * An undated file whose first move into `Erreur_tri` raises and whose
   * second move to the same path goes through ends there, after the
   * "pas de date" line and the line reporting the second move.
   */
  lemma {:induction false} UndatedRetry(x: string, f: MediaFile, t: Trees, paths: Paths,
                                        moveOk: (string, Target, Attempt) -> bool)
    requires RouteOf(x, f).Undated?
    requires !moveOk(x, QuarantineDir(x), First) && moveOk(x, QuarantineDir(x), Retry)
    ensures Dispatch(x, f, t, paths, moveOk).0 == Deliver(t, x, QuarantineDir(x), f)
    ensures Dispatch(x, f, t, paths, moveOk).1 ==
      [LogEntry(ERREUR, x + " déplacé vers Erreur_tri", "pas de date"),
       LogEntry(ERREUR, x + " déplacé vers Erreur_tri", ExceptionText)]
  {
    var route := RouteOf(x, f);
    assert route == Undated(x);
    assert RouteTarget(route) == QuarantineDir(x);
  }

  /** What one iteration of the second loop produces. */
  datatype Step = Step(trees: Trees, seen: Seen, entries: seq<LogEntry>, marks: seq<nat>, dup: Option<string>)

  /**
   * One iteration of the second loop for the name `x`.  `marks` are the
   * values of `done_ops` passed to the progress callback, `dup` the
   * retained file that `x` duplicates, when it is one.
   */
  function SortOne(x: string, t: Trees, seen: Seen, paths: Paths, moveOk: (string, Target, Attempt) -> bool,
                   done: nat): (r: Step)
    requires x !in Keys(seen.images) && x !in Keys(seen.videos)
    ensures r.marks == if x in t.staging then [done + 1, done + 2] else [done + 2]
    ensures x !in t.staging ==> r.trees == t && r.seen == seen && r.entries == [] && r.dup.None?
    ensures Grows(t, r.trees) && StagingShrinks(t, r.trees, x)
    ensures r.dup.Some? <==> x in t.staging && DuplicateCheck(LowerExt(x), t.staging[x], seen).Duplicate?
    ensures r.dup.Some? ==>
      && r.dup.value in Keys(seen.images) + Keys(seen.videos)
      && r.trees == t.(staging := t.staging - {x})
      && r.seen == seen
    ensures CountCode(r.entries, DUPLICAT) == if r.dup.Some? then 1 else 0
    ensures Keys(r.seen.images) <= Keys(seen.images) + {x}
    ensures Keys(r.seen.videos) <= Keys(seen.videos) + {x}
    ensures x in t.staging && UnsupportedName(x) ==> r.trees == t
  {
    if x !in t.staging then
      GrowsRefl(t, x);
      Step(t, seen, [], [done + 2], None)
    else
      var chk := DuplicateCheck(LowerExt(x), t.staging[x], seen);
      if chk.Duplicate? then DropDuplicate(x, t, seen, chk.of, done)
      else KeepAndDispatch(x, chk, t, seen, paths, moveOk, done)
  }

  /** What one iteration retains, and where it leaves the file it was given. */
  lemma {:induction false} SortOneFate(x: string, t: Trees, seen: Seen, paths: Paths, moveOk: (string, Target, Attempt) -> bool,
                                       done: nat)
    requires x !in Keys(seen.images) && x !in Keys(seen.videos)
    ensures var r := SortOne(x, t, seen, paths, moveOk, done);
      r.seen == if x in t.staging then Retain(seen, x, LowerExt(x), t.staging[x], DuplicateCheck(LowerExt(x), t.staging[x], seen)) else seen
    ensures x in t.staging ==>
      FateHeld(x, StepFate(x, t.staging[x], seen, moveOk), t.staging, SortOne(x, t, seen, paths, moveOk, done).trees)
  {
    if x in t.staging {
      var chk := DuplicateCheck(LowerExt(x), t.staging[x], seen);
      if !chk.Duplicate? {
        KeepFate(x, chk, t, seen, paths, moveOk, done);
      }
    }
  }

  /** A file that is no duplicate ends where its move put it. */
  lemma {:induction false} KeepFate(x: string, chk: Check, t: Trees, seen: Seen, paths: Paths,
                                    moveOk: (string, Target, Attempt) -> bool, done: nat)
    requires x in t.staging
    ensures FateHeld(x, MoveFate(x, t.staging[x], moveOk), t.staging, KeepAndDispatch(x, chk, t, seen, paths, moveOk, done).trees)
  {
    var f := t.staging[x];
    var r := KeepAndDispatch(x, chk, t, seen, paths, moveOk, done);
    var fate := MoveFate(x, f, moveOk);
    if fate.Delivered? {
      assert r.trees == Deliver(t, x, fate.target, f);
    } else {
      assert r.trees == t;
    }
  }

  /** One iteration changes a destination only by delivering its own file there. */
  lemma {:induction false} SortOneTargets(x: string, t: Trees, seen: Seen, paths: Paths, moveOk: (string, Target, Attempt) -> bool,
                                          done: nat, target: Target)
    requires x !in Keys(seen.images) && x !in Keys(seen.videos)
    ensures At(SortOne(x, t, seen, paths, moveOk, done).trees, target) ==
      if x in t.staging && StepFate(x, t.staging[x], seen, moveOk) == Delivered(target) then Some(t.staging[x])
      else At(t, target)
  {
    if x in t.staging {
      var f := t.staging[x];
      var chk := DuplicateCheck(LowerExt(x), f, seen);
      if !chk.Duplicate? {
        var fate := MoveFate(x, f, moveOk);
        if fate.Delivered? {
          DeliverAt(t, x, fate.target, f, target);
        }
      }
    }
  }

  /** A duplicate is deleted: `os.remove` and one `[DUPLICAT]` line. */
  function DropDuplicate(x: string, t: Trees, seen: Seen, m: string, done: nat): (r: Step)
    requires x in t.staging
    ensures Grows(t, r.trees) && StagingShrinks(t, r.trees, x)
    ensures r.trees == t.(staging := t.staging - {x}) && r.seen == seen && r.dup == Some(m)
    ensures CountCode(r.entries, DUPLICAT) == 1
    ensures r.marks == [done + 1, done + 2]
  {
    var ext := LowerExt(x);
    var search := LogEntry(SEARCH, "recherche de doublons pour " + x, "");
    var why := (if ext == ".jpg" then "similaire à " else "identique à ") + m;
    var entries := [search, LogEntry(DUPLICAT, x + " supprimé", why)];
    assert entries[..1] == [search] && [search][..0] == [];
    assert CountCode([search], DUPLICAT) == 0;
    Step(t.(staging := t.staging - {x}), seen, entries, [done + 1, done + 2], Some(m))
  }

  /** `seen_images[filename] = h` or `seen_videos[filename] = h`, when the search read a hash. */
  function Retain(seen: Seen, x: string, ext: string, f: MediaFile, chk: Check): (r: Seen)
    ensures Keys(r.images) <= Keys(seen.images) + {x}
    ensures Keys(r.videos) <= Keys(seen.videos) + {x}
  {
    if chk.Kept? && ext == ".jpg" && f.phash.Some? then seen.(images := Put(seen.images, x, f.phash.value))
    else if chk.Kept? && ext == ".mp4" then seen.(videos := Put(seen.videos, x, f.md5))
    else seen
  }

  /** The lines logged before the classification: the search, and the analysis error if any. */
  function SearchEntries(x: string, chk: Check): (r: seq<LogEntry>)
    ensures CountCode(r, DUPLICAT) == 0
  {
    var search := LogEntry(SEARCH, "recherche de doublons pour " + x, "");
    var r := if chk.Unreadable? then [search, LogEntry(ERREUR, "Impossible d’analyser " + x, ExceptionText)]
             else [search];
    NoDupEntries(r);
    r
  }

  /**
   * A file that is no duplicate (`chk` is the outcome of its search):
   * retained when its hash or digest was read, then dispatched.
   */
  function KeepAndDispatch(x: string, chk: Check, t: Trees, seen: Seen, paths: Paths,
                           moveOk: (string, Target, Attempt) -> bool, done: nat): (r: Step)
    requires x in t.staging
    ensures Grows(t, r.trees) && StagingShrinks(t, r.trees, x)
    ensures r.dup.None? && CountCode(r.entries, DUPLICAT) == 0
    ensures Keys(r.seen.images) <= Keys(seen.images) + {x}
    ensures Keys(r.seen.videos) <= Keys(seen.videos) + {x}
    ensures UnsupportedName(x) ==> r.trees == t
    ensures r.marks == [done + 1, done + 2]
    ensures r.seen == Retain(seen, x, LowerExt(x), t.staging[x], chk)
    ensures var fate := MoveFate(x, t.staging[x], moveOk);
      && (fate.Delivered? ==> r.trees == Deliver(t, x, fate.target, t.staging[x]))
      && (!fate.Delivered? ==> r.trees == t)
  {
    var f := t.staging[x];
    var pre := SearchEntries(x, chk);
    var d := Dispatch(x, f, t, paths, moveOk);
    NoDupEntries(d.1);
    CountCodeAppend(pre, d.1, DUPLICAT);
    Step(d.0, Retain(seen, x, LowerExt(x), f, chk), pre + d.1, [done + 1, done + 2], None)
  }

  // ---------------------------------------------------------------------
  // Phase 2: what becomes of each file
  // ---------------------------------------------------------------------

  /** What the second loop does with one sorted name. */
  datatype Fate =
    | Absent                      // no longer on disk when reached
    | Deleted(of: string)         // removed as a copy of the retained file `of`
    | Left                        // extension not handled: stays in staging
    | Delivered(target: Target)   // moved to `target`
    | Stuck                       // both moves failed: stays in staging

  /** The fate of a file that is no duplicate: its route, then the move and, on failure, the move to `Erreur_tri`. */
  function MoveFate(x: string, f: MediaFile, moveOk: (string, Target, Attempt) -> bool): Fate {
    RouteFate(x, RouteOf(x, f), moveOk)
  }

  /** The fate of the file `x` once its route is known. */
  function RouteFate(x: string, route: Route, moveOk: (string, Target, Attempt) -> bool): Fate {
    if route.Unsupported? then Left
    else if moveOk(x, RouteTarget(route), First) then Delivered(RouteTarget(route))
    else if moveOk(x, QuarantineDir(RouteName(route)), Retry) then Delivered(QuarantineDir(RouteName(route)))
    else Stuck
  }

  /** A route to a well-placed year directory delivers only there. */
  lemma {:induction false} RouteFatePlaced(x: string, route: Route, moveOk: (string, Target, Attempt) -> bool)
    requires route.ToPhotos? ==> PhotoPlaced(Place(route.year, route.name))
    requires route.ToVideos? ==> VideoPlaced(Place(route.year, route.name))
    ensures var fate := RouteFate(x, route, moveOk);
      && (fate.Delivered? && fate.target.PhotoDir? ==> PhotoPlaced(fate.target.place))
      && (fate.Delivered? && fate.target.VideoDir? ==> VideoPlaced(fate.target.place))
  {
  }

  /** Every extension other than `.jpg` and `.mp4` stays where it is, and nothing else is left alone. */
  lemma {:induction false} MoveFateLeft(x: string, f: MediaFile, moveOk: (string, Target, Attempt) -> bool)
    ensures MoveFate(x, f, moveOk) == Left <==> UnsupportedName(x)
  {
    assert RouteOf(x, f).Unsupported? <==> UnsupportedName(x);
  }

  /** Canonical names go to their year under the photo or video root when the move succeeds. */
  lemma {:induction false} MoveFateCanonical(x: string, f: MediaFile, moveOk: (string, Target, Attempt) -> bool)
    ensures var fate := MoveFate(x, f, moveOk);
      && (MatchesPattern(x, Photo) && moveOk(x, PhotoDir(Place(PatternYear(x, Photo), x)), First) ==>
            fate == Delivered(PhotoDir(Place(PatternYear(x, Photo), x))))
      && (!MatchesPattern(x, Photo) && MatchesPattern(x, Video) && moveOk(x, VideoDir(Place(PatternYear(x, Video), x)), First) ==>
            fate == Delivered(VideoDir(Place(PatternYear(x, Video), x))))
  {
  }

  /**
   * A dated `.jpg` without a canonical name goes, when the move succeeds, to
   * its year under the name synthesised from its EXIF date; otherwise to
   * `Erreur_tri` under that same name.
   */
  lemma {:induction false} MoveFateDatedPhoto(x: string, f: MediaFile, moveOk: (string, Target, Attempt) -> bool)
    requires !MatchesPattern(x, Photo) && !MatchesPattern(x, Video)
    requires LowerExt(x) == ".jpg" && ExifDateTime(f.exif).Some?
    ensures var d := ExifDateTime(f.exif).value;
      var n := "IMG" + Stamp(d) + ".jpg";
      MoveFate(x, f, moveOk) ==
        if moveOk(x, PhotoDir(Place(YearText(d), n)), First) then Delivered(PhotoDir(Place(YearText(d), n)))
        else if moveOk(x, QuarantineDir(n), Retry) then Delivered(QuarantineDir(n))
        else Stuck
  {
    var d := ExifDateTime(f.exif).value;
    RouteOfDated(x, f);
    var route := RouteOf(x, f);
    assert route == ToPhotos(YearText(d), "IMG" + Stamp(d) + ".jpg");
    assert MoveFate(x, f, moveOk) == RouteFate(x, route, moveOk);
  }

  /**
   * A `.mp4` with a modification time and without a canonical name goes,
   * when the move succeeds, to its year under the name synthesised from
   * that time; otherwise to `Erreur_tri` under that same name.
   */
  lemma {:induction false} MoveFateDatedVideo(x: string, f: MediaFile, moveOk: (string, Target, Attempt) -> bool)
    requires !MatchesPattern(x, Photo) && !MatchesPattern(x, Video)
    requires LowerExt(x) == ".mp4" && f.mtime.Some?
    ensures var d := f.mtime.value;
      var n := "VID" + Stamp(d) + ".mp4";
      MoveFate(x, f, moveOk) ==
        if moveOk(x, VideoDir(Place(YearText(d), n)), First) then Delivered(VideoDir(Place(YearText(d), n)))
        else if moveOk(x, QuarantineDir(n), Retry) then Delivered(QuarantineDir(n))
        else Stuck
  {
    var d := f.mtime.value;
    var n := "VID" + Stamp(d) + ".mp4";
    RouteOfDated(x, f);
    var route := RouteOf(x, f);
    assert route == ToVideos(YearText(d), n);
    VideoRouteFate(x, YearText(d), n, moveOk);
  }

  /** The fate of a file routed to the year `y` under the video root with the name `n`. */
  lemma {:induction false} VideoRouteFate(x: string, y: string, n: string, moveOk: (string, Target, Attempt) -> bool)
    ensures RouteFate(x, ToVideos(y, n), moveOk) ==
      if moveOk(x, VideoDir(Place(y, n)), First) then Delivered(VideoDir(Place(y, n)))
      else if moveOk(x, QuarantineDir(n), Retry) then Delivered(QuarantineDir(n))
      else Stuck
  {
  }

  /** Only well-placed names reach the dated trees. */
  lemma {:induction false} MoveFatePlaced(x: string, f: MediaFile, moveOk: (string, Target, Attempt) -> bool)
    ensures var fate := MoveFate(x, f, moveOk);
      && (fate.Delivered? && fate.target.PhotoDir? ==> PhotoPlaced(fate.target.place))
      && (fate.Delivered? && fate.target.VideoDir? ==> VideoPlaced(fate.target.place))
  {
    RouteDestinationSound(x, f);
    RouteFatePlaced(x, RouteOf(x, f), moveOk);
  }

  /**
   * An undated `.jpg`/`.mp4` goes to `Erreur_tri` under its own name, by the
   * first move or by the second one to the same path, or else stays.
   */
  lemma {:induction false} MoveFateUndated(x: string, f: MediaFile, moveOk: (string, Target, Attempt) -> bool)
    requires RouteOf(x, f).Undated?
    ensures MoveFate(x, f, moveOk) ==
      if moveOk(x, QuarantineDir(x), First) || moveOk(x, QuarantineDir(x), Retry) then Delivered(QuarantineDir(x)) else Stuck
  {
  }

  /** A file that stays after a failed move has a handled extension. */
  lemma {:induction false} MoveFateStuck(x: string, f: MediaFile, moveOk: (string, Target, Attempt) -> bool)
    ensures MoveFate(x, f, moveOk) == Stuck ==> !UnsupportedName(x)
  {
  }

  /** The outcome of one iteration for a file found on disk, against what was retained before it. */
  function StepFate(x: string, f: MediaFile, seen: Seen, moveOk: (string, Target, Attempt) -> bool): Fate {
    var chk := DuplicateCheck(LowerExt(x), f, seen);
    if chk.Duplicate? then Deleted(chk.of) else MoveFate(x, f, moveOk)
  }

  /**
   * `seen_images` and `seen_videos` after the first `i` sorted names, for the
   * staging directory `s0` as the second loop found it.
   */
  function SeenAfter(names: seq<string>, s0: map<string, MediaFile>, i: nat): Seen
    requires i <= |names|
  {
    if i == 0 then Seen([], [])
    else
      var seen := SeenAfter(names, s0, i - 1);
      var x := names[i - 1];
      if x in s0 then Retain(seen, x, LowerExt(x), s0[x], DuplicateCheck(LowerExt(x), s0[x], seen)) else seen
  }

  /** What the second loop does with `names[j]`. */
  function FateAt(names: seq<string>, s0: map<string, MediaFile>, moveOk: (string, Target, Attempt) -> bool, j: nat): Fate
    requires j < |names|
  {
    var x := names[j];
    if x !in s0 then Absent else StepFate(x, s0[x], SeenAfter(names, s0, j), moveOk)
  }

  /** Where its fate leaves the file `x` of `s0` in the trees `t`. */
  predicate FateHeld(x: string, fate: Fate, s0: map<string, MediaFile>, t: Trees) {
    match fate
    case Absent => x !in t.staging
    case Deleted(_) => x !in t.staging
    case Left => x in t.staging && x in s0 && t.staging[x] == s0[x]
    case Stuck => x in t.staging && x in s0 && t.staging[x] == s0[x]
    case Delivered(target) =>
      && x !in t.staging
      && match target
         case PhotoDir(p) => p in t.photos
         case VideoDir(p) => p in t.videos
         case QuarantineDir(n) => n in t.quarantine
  }

  /** A file that the search compares with a retained one and finds the same. */
  predicate SameMedia(x: string, f: MediaFile, y: string, g: MediaFile) {
    || (LowerExt(x) == ".jpg" && LowerExt(y) == ".jpg" && f.phash.Some? && g.phash.Some?
        && MatchesRetained(f.phash.value, f.rotations, g.phash.value))
    || (LowerExt(x) == ".mp4" && LowerExt(y) == ".mp4" && f.md5 == g.md5)
  }

  /** `names[a]` went into `seen_images` or `seen_videos`: on disk, hashed, and no duplicate. */
  predicate Retained(names: seq<string>, s0: map<string, MediaFile>, a: nat)
    requires a < |names|
  {
    var x := names[a];
    && x in s0
    && ((LowerExt(x) == ".jpg" && s0[x].phash.Some?) || LowerExt(x) == ".mp4")
    && !DuplicateCheck(LowerExt(x), s0[x], SeenAfter(names, s0, a)).Duplicate?
  }

  /** `p` is the retained image `names[a]` with its hash. */
  predicate ImageOf(names: seq<string>, s0: map<string, MediaFile>, a: nat, p: (string, Hash))
    requires a < |names|
  {
    Retained(names, s0, a) && LowerExt(names[a]) == ".jpg" && p == (names[a], s0[names[a]].phash.value)
  }

  /** `p` is the retained video `names[a]` with its digest. */
  predicate VideoOf(names: seq<string>, s0: map<string, MediaFile>, a: nat, p: (string, string))
    requires a < |names|
  {
    Retained(names, s0, a) && LowerExt(names[a]) == ".mp4" && p == (names[a], s0[names[a]].md5)
  }

  /** The retained images are exactly the retained `.jpg` files before `i`, each with its own hash. */
  lemma {:induction false} SeenAfterImages(names: seq<string>, s0: map<string, MediaFile>, i: nat, p: (string, Hash))
    requires Distinct(names) && i <= |names|
    ensures p in SeenAfter(names, s0, i).images <==> exists a | 0 <= a < i :: ImageOf(names, s0, a, p)
    decreases i, 3
  {
    ImagesSound(names, s0, i, p);
    if exists a | 0 <= a < i :: ImageOf(names, s0, a, p) {
      var a :| 0 <= a < i && ImageOf(names, s0, a, p);
      ImageKept(names, s0, i, a, p);
    }
  }

  /** Every retained image comes from an earlier retained `.jpg` file. */
  lemma {:induction false} ImagesSound(names: seq<string>, s0: map<string, MediaFile>, i: nat, p: (string, Hash))
    requires Distinct(names) && i <= |names|
    ensures p in SeenAfter(names, s0, i).images ==> exists a | 0 <= a < i :: ImageOf(names, s0, a, p)
    decreases i, 2
  {
    if i > 0 {
      ImagesSound(names, s0, i - 1, p);
      SeenAfterStep(names, s0, i);
      if p in SeenAfter(names, s0, i).images && p !in SeenAfter(names, s0, i - 1).images {
        assert ImageOf(names, s0, i - 1, p);
      }
    }
  }

  /** A retained `.jpg` file stays among the retained images. */
  lemma {:induction false} ImageKept(names: seq<string>, s0: map<string, MediaFile>, i: nat, a: nat, p: (string, Hash))
    requires Distinct(names) && a < i <= |names|
    ensures ImageOf(names, s0, a, p) ==> p in SeenAfter(names, s0, i).images
    decreases i, 2
  {
    if a < i - 1 {
      ImageKept(names, s0, i - 1, a, p);
      SeenAfterKeeps(names, s0, i);
    } else if ImageOf(names, s0, a, p) {
      SeenAfterStep(names, s0, i);
      assert a == i - 1;
    }
  }

  /** The retained videos are exactly the retained `.mp4` files before `i`, each with its own digest. */
  lemma {:induction false} SeenAfterVideos(names: seq<string>, s0: map<string, MediaFile>, i: nat, p: (string, string))
    requires Distinct(names) && i <= |names|
    ensures p in SeenAfter(names, s0, i).videos <==> exists a | 0 <= a < i :: VideoOf(names, s0, a, p)
    decreases i, 3
  {
    VideosSound(names, s0, i, p);
    if exists a | 0 <= a < i :: VideoOf(names, s0, a, p) {
      var a :| 0 <= a < i && VideoOf(names, s0, a, p);
      VideoKept(names, s0, i, a, p);
    }
  }

  /** Every retained video comes from an earlier retained `.mp4` file. */
  lemma {:induction false} VideosSound(names: seq<string>, s0: map<string, MediaFile>, i: nat, p: (string, string))
    requires Distinct(names) && i <= |names|
    ensures p in SeenAfter(names, s0, i).videos ==> exists a | 0 <= a < i :: VideoOf(names, s0, a, p)
    decreases i, 2
  {
    if i > 0 {
      VideosSound(names, s0, i - 1, p);
      SeenAfterStep(names, s0, i);
      if p in SeenAfter(names, s0, i).videos && p !in SeenAfter(names, s0, i - 1).videos {
        assert VideoOf(names, s0, i - 1, p);
      }
    }
  }

  /** A retained `.mp4` file stays among the retained videos. */
  lemma {:induction false} VideoKept(names: seq<string>, s0: map<string, MediaFile>, i: nat, a: nat, p: (string, string))
    requires Distinct(names) && a < i <= |names|
    ensures VideoOf(names, s0, a, p) ==> p in SeenAfter(names, s0, i).videos
    decreases i, 2
  {
    if a < i - 1 {
      VideoKept(names, s0, i - 1, a, p);
      SeenAfterKeeps(names, s0, i);
    } else if VideoOf(names, s0, a, p) {
      SeenAfterStep(names, s0, i);
      assert a == i - 1;
    }
  }

  /**
   * A file reached by the second loop is deleted exactly when an earlier
   * retained file is the same picture (straight or turned) or the same
   * video.
   */
  lemma {:induction false} DeletedIffCopy(names: seq<string>, s0: map<string, MediaFile>,
                                          moveOk: (string, Target, Attempt) -> bool, j: nat)
    requires Distinct(names) && j < |names| && names[j] in s0
    ensures FateAt(names, s0, moveOk, j).Deleted? <==>
      exists a | 0 <= a < j :: Retained(names, s0, a) && SameMedia(names[j], s0[names[j]], names[a], s0[names[a]])
  {
    DeletedHasOrigin(names, s0, moveOk, j);
    if exists a | 0 <= a < j :: Retained(names, s0, a) && SameMedia(names[j], s0[names[j]], names[a], s0[names[a]]) {
      var a :| 0 <= a < j && Retained(names, s0, a) && SameMedia(names[j], s0[names[j]], names[a], s0[names[a]]);
      CopyFound(names, s0, j, a);
    }
  }

  /** A deleted file names as its original an earlier retained file with the same content. */
  lemma {:induction false} DeletedHasOrigin(names: seq<string>, s0: map<string, MediaFile>,
                                            moveOk: (string, Target, Attempt) -> bool, j: nat)
    requires Distinct(names) && j < |names|
    ensures var fate := FateAt(names, s0, moveOk, j);
      fate.Deleted? ==>
        && names[j] in s0
        && exists a | 0 <= a < j :: names[a] == fate.of && Retained(names, s0, a)
             && SameMedia(names[j], s0[names[j]], names[a], s0[names[a]])
  {
    var x := names[j];
    if x in s0 {
      var f := s0[x];
      var seen := SeenAfter(names, s0, j);
      var chk := DuplicateCheck(LowerExt(x), f, seen);
      DuplicateCheckSpec(LowerExt(x), f, seen);
      if chk.Duplicate? && LowerExt(x) == ".jpg" {
        var k :| 0 <= k < |seen.images| && seen.images[k].0 == chk.of
          && MatchesRetained(f.phash.value, f.rotations, seen.images[k].1);
        ImagesSound(names, s0, j, seen.images[k]);
        var a :| 0 <= a < j && ImageOf(names, s0, a, seen.images[k]);
        assert SameMedia(x, f, names[a], s0[names[a]]);
      } else if chk.Duplicate? && LowerExt(x) == ".mp4" {
        var k :| 0 <= k < |seen.videos| && seen.videos[k].0 == chk.of && seen.videos[k].1 == f.md5;
        VideosSound(names, s0, j, seen.videos[k]);
        var a :| 0 <= a < j && VideoOf(names, s0, a, seen.videos[k]);
        assert SameMedia(x, f, names[a], s0[names[a]]);
      }
    }
  }

  /** The search finds a copy of every earlier retained file with the same content. */
  lemma {:induction false} CopyFound(names: seq<string>, s0: map<string, MediaFile>, j: nat, a: nat)
    requires Distinct(names) && a < j < |names| && names[j] in s0
    ensures Retained(names, s0, a) && SameMedia(names[j], s0[names[j]], names[a], s0[names[a]]) ==>
      DuplicateCheck(LowerExt(names[j]), s0[names[j]], SeenAfter(names, s0, j)).Duplicate?
  {
    var x := names[j];
    var f := s0[x];
    var y := names[a];
    var seen := SeenAfter(names, s0, j);
    DuplicateCheckSpec(LowerExt(x), f, seen);
    if Retained(names, s0, a) && SameMedia(x, f, y, s0[y]) {
      if LowerExt(x) == ".jpg" {
        var p := (y, s0[y].phash.value);
        ImageKept(names, s0, j, a, p);
        var k :| 0 <= k < |seen.images| && seen.images[k] == p;
        assert MatchesRetained(f.phash.value, f.rotations, seen.images[k].1);
      } else {
        var p := (y, s0[y].md5);
        VideoKept(names, s0, j, a, p);
        var k :| 0 <= k < |seen.videos| && seen.videos[k] == p;
        assert seen.videos[k].1 == f.md5;
      }
    }
  }

  /** Reaching `names[i - 1]` appends it to the images or videos exactly when it is retained. */
  lemma {:induction false} SeenAfterStep(names: seq<string>, s0: map<string, MediaFile>, i: nat)
    requires Distinct(names) && 0 < i <= |names|
    ensures var seen := SeenAfter(names, s0, i - 1); var x := names[i - 1];
      && SeenAfter(names, s0, i).images ==
         (if Retained(names, s0, i - 1) && LowerExt(x) == ".jpg" then seen.images + [(x, s0[x].phash.value)] else seen.images)
      && SeenAfter(names, s0, i).videos ==
         (if Retained(names, s0, i - 1) && LowerExt(x) == ".mp4" then seen.videos + [(x, s0[x].md5)] else seen.videos)
    decreases i, 1
  {
    var seen := SeenAfter(names, s0, i - 1);
    var x := names[i - 1];
    if x in s0 {
      var chk := DuplicateCheck(LowerExt(x), s0[x], seen);
      assert SeenAfter(names, s0, i) == Retain(seen, x, LowerExt(x), s0[x], chk);
      assert Retained(names, s0, i - 1) <==> chk.Kept? by {
        CheckKept(LowerExt(x), s0[x], seen);
      }
      SeenAfterFresh(names, s0, i - 1);
    }
  }

  /** The second loop never drops an entry from `seen_images` or `seen_videos`. */
  lemma {:induction false} SeenAfterKeeps(names: seq<string>, s0: map<string, MediaFile>, i: nat)
    requires Distinct(names) && 0 < i <= |names|
    ensures forall q | q in SeenAfter(names, s0, i - 1).images :: q in SeenAfter(names, s0, i).images
    ensures forall q | q in SeenAfter(names, s0, i - 1).videos :: q in SeenAfter(names, s0, i).videos
  {
    SeenAfterStep(names, s0, i);
  }

  /** The name reached next was not retained before. */
  lemma {:induction false} SeenAfterFresh(names: seq<string>, s0: map<string, MediaFile>, k: nat)
    requires Distinct(names) && k < |names|
    ensures names[k] !in Keys(SeenAfter(names, s0, k).images) && names[k] !in Keys(SeenAfter(names, s0, k).videos)
    decreases k + 1, 0
  {
    var seen := SeenAfter(names, s0, k);
    forall m | 0 <= m < |seen.images| ensures seen.images[m].0 != names[k] {
      ImagesSound(names, s0, k, seen.images[m]);
    }
    forall m | 0 <= m < |seen.videos| ensures seen.videos[m].0 != names[k] {
      VideosSound(names, s0, k, seen.videos[m]);
    }
  }

  // ---------------------------------------------------------------------
  // Phase 2: the loop
  // ---------------------------------------------------------------------

  /** The progress values reported for a list of `done_ops` values. */
  function Percents(marks: seq<nat>, total: nat): (r: seq<nat>)
    requires total > 0
    ensures |r| == |marks|
    ensures forall k | 0 <= k < |marks| :: r[k] == Percent(marks[k], total)
  {
    if marks == [] then [] else [Percent(marks[0], total)] + Percents(marks[1..], total)
  }

  /**
   * The progress reported while `done_ops` went from `lo` to `hi`: never
   * going down, within the two percentages, and ending at the later one.
   */
  predicate ProgressBetween(progress: seq<nat>, lo: nat, hi: nat, total: nat)
    requires total > 0
  {
    && Nondecreasing(progress)
    && (forall k | 0 <= k < |progress| :: Percent(lo, total) <= progress[k] <= Percent(hi, total))
    && (progress != [] ==> progress[|progress| - 1] == Percent(hi, total))
  }

  lemma {:induction false} ProgressStep(progress: seq<nat>, lo: nat, done: nat, total: nat, marks: seq<nat>)
    requires total > 0 && lo <= done
    requires ProgressBetween(progress, lo, done, total)
    requires marks == [done + 1, done + 2] || marks == [done + 2]
    ensures ProgressBetween(progress + Percents(marks, total), lo, done + 2, total)
  {
    var p := Percents(marks, total);
    PercentMonotone(lo, done, total);
    PercentMonotone(done, done + 1, total);
    PercentMonotone(done + 1, done + 2, total);
    assert Nondecreasing(p);
    NondecreasingAppend(progress, p);
    var q := progress + p;
    assert q[|q| - 1] == p[|p| - 1];
  }

  /** The sorted file `names[b]` was deleted as a copy of the earlier `names[a]`. */
  predicate DeletedAsCopy(names: seq<string>, i: nat, d: (string, string))
    requires i <= |names|
  {
    exists a, b | 0 <= a < b < i :: names[a] == d.1 && names[b] == d.0
  }

  /**
   * The staging directory before `names[i]`: only original files,
   * unchanged, still every file not yet visited, and every visited file of
   * an unsupported extension.
   */
  ghost predicate StagingInv(names: seq<string>, t0: Trees, t: Trees, i: nat)
    requires i <= |names|
  {
    && (forall y | y in t.staging :: y in t0.staging && t.staging[y] == t0.staging[y])
    && (forall y | y in t0.staging && y !in names[..i] :: y in t.staging)
    && (forall j | 0 <= j < i :: names[j] in t0.staging && UnsupportedName(names[j])
          ==> names[j] in t.staging)
  }

  /** The retained hashes and digests belong to visited files. */
  predicate SeenInv(names: seq<string>, seen: Seen, i: nat)
    requires i <= |names|
  {
    && (forall y | y in Keys(seen.images) :: y in names[..i])
    && (forall y | y in Keys(seen.videos) :: y in names[..i])
  }

  /** Every deletion so far removed a later copy of an earlier file, and for good. */
  predicate DeletionsInv(names: seq<string>, t: Trees, deletions: seq<(string, string)>, i: nat)
    requires i <= |names|
  {
    forall k | 0 <= k < |deletions| :: DeletedAsCopy(names, i, deletions[k]) && deletions[k].0 !in t.staging
  }

  /** The state of the second loop before `names[i]`. */
  ghost predicate SortInv(names: seq<string>, t0: Trees, t: Trees, seen: Seen,
                          deletions: seq<(string, string)>, i: nat)
    requires i <= |names|
  {
    StagingInv(names, t0, t, i) && SeenInv(names, seen, i) && DeletionsInv(names, t, deletions, i) && Grows(t0, t)
  }

  /** `Grows` does not look at the staging directory of its first tree. */
  lemma {:induction false} GrowsIgnoresStaging(t: Trees, s: map<string, MediaFile>, t': Trees)
    ensures Grows(t.(staging := s), t') == Grows(t, t')
  {
  }

  lemma {:induction false} GrowsTrans(t: Trees, t': Trees, t'': Trees)
    requires Grows(t, t') && Grows(t', t'')
    ensures Grows(t, t'')
  {
  }

  lemma {:induction false} PrefixStep(names: seq<string>, i: nat)
    requires i < |names|
    ensures forall y :: y in names[..i + 1] <==> y in names[..i] || y == names[i]
  {
    assert names[..i + 1] == names[..i] + [names[i]];
  }

  lemma {:induction false} StagingStep(names: seq<string>, t0: Trees, t: Trees, t': Trees, i: nat)
    requires Distinct(names) && i < |names| && StagingInv(names, t0, t, i)
    requires StagingShrinks(t, t', names[i])
    requires names[i] in t.staging && UnsupportedName(names[i]) ==> t' == t
    ensures StagingInv(names, t0, t', i + 1)
  {
    var x := names[i];
    PrefixStep(names, i);
    assert x !in names[..i];
    forall j | 0 <= j < i + 1 && names[j] in t0.staging && UnsupportedName(names[j])
      ensures names[j] in t'.staging
    {
      if j < i {
        assert names[j] != x;
      }
    }
  }

  lemma {:induction false} SeenStep(names: seq<string>, seen: Seen, seen': Seen, i: nat)
    requires i < |names| && SeenInv(names, seen, i)
    requires Keys(seen'.images) <= Keys(seen.images) + {names[i]}
    requires Keys(seen'.videos) <= Keys(seen.videos) + {names[i]}
    ensures SeenInv(names, seen', i + 1)
  {
    PrefixStep(names, i);
  }

  lemma {:induction false} DeletionsStep(names: seq<string>, t: Trees, t': Trees, deletions: seq<(string, string)>, i: nat,
                      seen: Seen, dup: Option<string>)
    requires i < |names| && DeletionsInv(names, t, deletions, i) && SeenInv(names, seen, i)
    requires forall y | y in t'.staging :: y in t.staging
    requires dup.Some? ==> dup.value in Keys(seen.images) + Keys(seen.videos) && names[i] !in t'.staging
    ensures DeletionsInv(names, t', deletions + (if dup.Some? then [(names[i], dup.value)] else []), i + 1)
  {
    var d' := deletions + (if dup.Some? then [(names[i], dup.value)] else []);
    forall k | 0 <= k < |d'| ensures DeletedAsCopy(names, i + 1, d'[k]) && d'[k].0 !in t'.staging {
      if k < |deletions| {
        var a, b :| 0 <= a < b < i && names[a] == deletions[k].1 && names[b] == deletions[k].0;
        assert d'[k] == deletions[k];
      } else {
        var m := dup.value;
        assert m in names[..i];
        var a :| 0 <= a < i && names[..i][a] == m;
        assert names[a] == d'[k].1 && names[i] == d'[k].0;
      }
    }
  }

  /** Every file reached so far ended as its fate says. */
  ghost predicate FatesHeld(names: seq<string>, s0: map<string, MediaFile>, moveOk: (string, Target, Attempt) -> bool,
                            t: Trees, i: nat)
    requires i <= |names|
  {
    forall j {:trigger FateAt(names, s0, moveOk, j)} | 0 <= j < i :: FateHeld(names[j], FateAt(names, s0, moveOk, j), s0, t)
  }

  /** The fates of the first `i` sorted names, in order. */
  function Fates(names: seq<string>, s0: map<string, MediaFile>, moveOk: (string, Target, Attempt) -> bool, i: nat): (r: seq<Fate>)
    requires i <= |names|
    ensures |r| == i
    ensures forall j | 0 <= j < i :: r[j] == FateAt(names, s0, moveOk, j)
  {
    if i == 0 then [] else Fates(names, s0, moveOk, i - 1) + [FateAt(names, s0, moveOk, i - 1)]
  }

  /** A delivered file was on disk when the loop reached it. */
  lemma {:induction false} DeliveredOnDisk(names: seq<string>, s0: map<string, MediaFile>, moveOk: (string, Target, Attempt) -> bool, j: nat)
    requires j < |names| && FateAt(names, s0, moveOk, j).Delivered?
    ensures names[j] in s0
  {
  }

  /**
   * What `target` holds after the first `i` sorted names: the last file
   * delivered there, whatever was there before, or else what it held in
   * `before`.
   */
  function HeldAt(names: seq<string>, s0: map<string, MediaFile>, moveOk: (string, Target, Attempt) -> bool,
                  before: Trees, target: Target, i: nat): Option<MediaFile>
    requires i <= |names|
  {
    match LastPos(Fates(names, s0, moveOk, i), Delivered(target))
    case None => At(before, target)
    case Some(j) =>
      DeliveredOnDisk(names, s0, moveOk, j);
      Some(s0[names[j]])
  }

  /** Every destination of the trees `t` holds what `HeldAt` says. */
  ghost predicate ContentsHeld(names: seq<string>, s0: map<string, MediaFile>, moveOk: (string, Target, Attempt) -> bool,
                               before: Trees, t: Trees, i: nat)
    requires i <= |names|
  {
    forall target {:trigger At(t, target)} :: At(t, target) == HeldAt(names, s0, moveOk, before, target, i)
  }

  /** A file delivered to `target` and not followed there by a later one is what `target` holds. */
  lemma {:induction false} DeliveredHolds(names: seq<string>, s0: map<string, MediaFile>, moveOk: (string, Target, Attempt) -> bool,
                                          before: Trees, t: Trees, i: nat, j: nat, target: Target)
    requires j < i <= |names| && ContentsHeld(names, s0, moveOk, before, t, i)
    requires FateAt(names, s0, moveOk, j) == Delivered(target)
    requires forall k | j < k < i :: FateAt(names, s0, moveOk, k) != Delivered(target)
    ensures names[j] in s0 && At(t, target) == Some(s0[names[j]])
  {
    var fs := Fates(names, s0, moveOk, i);
    var last := LastPos(fs, Delivered(target));
    assert fs[j] == Delivered(target);
    assert last.Some?;
    var m := last.value;
    assert j <= m;
    assert FateAt(names, s0, moveOk, m) == Delivered(target);
    assert m == j;
    DeliveredOnDisk(names, s0, moveOk, j);
    assert At(t, target) == HeldAt(names, s0, moveOk, before, target, i);
  }

  /**
   * A later delivery to the same target replaces an earlier one: what
   * `target` holds is the file of a name delivered there at or after the
   * later one, so the earlier file is lost unless one of those has the same
   * content.
   */
  lemma {:induction false} LaterDeliveryReplaces(names: seq<string>, s0: map<string, MediaFile>, moveOk: (string, Target, Attempt) -> bool,
                                                 before: Trees, t: Trees, i: nat, j: nat, k: nat, target: Target)
    requires j < k < i <= |names| && ContentsHeld(names, s0, moveOk, before, t, i)
    requires FateAt(names, s0, moveOk, j) == Delivered(target) && FateAt(names, s0, moveOk, k) == Delivered(target)
    ensures exists m | k <= m < i :: FateAt(names, s0, moveOk, m) == Delivered(target) && names[m] in s0 && At(t, target) == Some(s0[names[m]])
  {
    var fs := Fates(names, s0, moveOk, i);
    var last := LastPos(fs, Delivered(target));
    assert fs[k] == Delivered(target);
    var m := last.value;
    assert k <= m && fs[m] == Delivered(target);
    DeliveredOnDisk(names, s0, moveOk, m);
    assert At(t, target) == HeldAt(names, s0, moveOk, before, target, i);
  }

  /** A destination that no reached file was delivered to keeps what it held before the loop. */
  lemma {:induction false} UndeliveredKept(names: seq<string>, s0: map<string, MediaFile>, moveOk: (string, Target, Attempt) -> bool,
                                           before: Trees, t: Trees, i: nat, target: Target)
    requires i <= |names| && ContentsHeld(names, s0, moveOk, before, t, i)
    requires forall k | 0 <= k < i :: FateAt(names, s0, moveOk, k) != Delivered(target)
    ensures At(t, target) == At(before, target)
  {
    var fs := Fates(names, s0, moveOk, i);
    assert forall k | 0 <= k < i :: fs[k] != Delivered(target);
    assert LastPos(fs, Delivered(target)).None?;
    assert At(t, target) == HeldAt(names, s0, moveOk, before, target, i);
  }

  /** `ContentsHeld` reads only the destinations of `before`. */
  lemma {:induction false} ContentsHeldBefore(names: seq<string>, s0: map<string, MediaFile>, moveOk: (string, Target, Attempt) -> bool,
                                              b1: Trees, b2: Trees, t: Trees, i: nat)
    requires i <= |names| && b1.photos == b2.photos && b1.videos == b2.videos && b1.quarantine == b2.quarantine
    requires ContentsHeld(names, s0, moveOk, b1, t, i)
    ensures ContentsHeld(names, s0, moveOk, b2, t, i)
  {
    forall target ensures At(t, target) == HeldAt(names, s0, moveOk, b2, target, i) {
      assert At(t, target) == HeldAt(names, s0, moveOk, b1, target, i);
      assert At(b1, target) == At(b2, target);
    }
  }

  lemma {:induction false} LastPosSnoc<T>(s: seq<T>, y: T, x: T)
    ensures LastPos(s + [y], x) == if y == x then Some(|s|) else LastPos(s, x)
  {
    assert (s + [y])[..|s|] == s;
  }

  /** One iteration keeps every destination as `HeldAt` says. */
  lemma {:induction false} ContentStep(names: seq<string>, t0: Trees, t: Trees, seen: Seen, i: nat,
                                       paths: Paths, moveOk: (string, Target, Attempt) -> bool, done: nat)
    requires Distinct(names) && i < |names| && StagingInv(names, t0, t, i)
    requires names[i] !in Keys(seen.images) && names[i] !in Keys(seen.videos)
    requires seen == SeenAfter(names, t0.staging, i)
    requires ContentsHeld(names, t0.staging, moveOk, t0, t, i)
    ensures ContentsHeld(names, t0.staging, moveOk, t0, SortOne(names[i], t, seen, paths, moveOk, done).trees, i + 1)
  {
    var x := names[i];
    var s0 := t0.staging;
    var r := SortOne(x, t, seen, paths, moveOk, done);
    assert x !in names[..i];
    assert x in t.staging <==> x in s0;
    assert x in s0 ==> t.staging[x] == s0[x];
    var fs := Fates(names, s0, moveOk, i);
    assert Fates(names, s0, moveOk, i + 1) == fs + [FateAt(names, s0, moveOk, i)];
    forall target ensures At(r.trees, target) == HeldAt(names, s0, moveOk, t0, target, i + 1) {
      SortOneTargets(x, t, seen, paths, moveOk, done, target);
      LastPosSnoc(fs, FateAt(names, s0, moveOk, i), Delivered(target));
      assert At(t, target) == HeldAt(names, s0, moveOk, t0, target, i);
    }
  }

  /** The second loop's retained files and the fates so far, against the reference definitions. */
  ghost predicate FatesInv(names: seq<string>, s0: map<string, MediaFile>, moveOk: (string, Target, Attempt) -> bool,
                           t: Trees, seen: Seen, i: nat)
    requires i <= |names|
  {
    seen == SeenAfter(names, s0, i) && FatesHeld(names, s0, moveOk, t, i)
  }

  /** A later step, which touches only the staging entry of `x`, keeps the fate of another file. */
  lemma {:induction false} FateHeldKept(y: string, fate: Fate, s0: map<string, MediaFile>, t: Trees, t': Trees, x: string)
    requires y != x && Grows(t, t') && StagingShrinks(t, t', x)
    ensures FateHeld(y, fate, s0, t) ==> FateHeld(y, fate, s0, t')
  {
  }

  /** A fate held against the staging entry of `x` holds against the equal entry of `s0`. */
  lemma {:induction false} FateHeldRebase(x: string, fate: Fate, s: map<string, MediaFile>, s0: map<string, MediaFile>, t: Trees)
    requires x in s && x in s0 && s[x] == s0[x]
    ensures FateHeld(x, fate, s, t) ==> FateHeld(x, fate, s0, t)
  {
  }

  /** One iteration follows the reference definitions: what it retains and where it leaves its file. */
  lemma {:induction false} FateStep(names: seq<string>, t0: Trees, t: Trees, seen: Seen, i: nat,
                                    paths: Paths, moveOk: (string, Target, Attempt) -> bool, done: nat)
    requires Distinct(names) && i < |names| && StagingInv(names, t0, t, i)
    requires names[i] !in Keys(seen.images) && names[i] !in Keys(seen.videos)
    requires FatesInv(names, t0.staging, moveOk, t, seen, i)
    ensures var r := SortOne(names[i], t, seen, paths, moveOk, done);
      FatesInv(names, t0.staging, moveOk, r.trees, r.seen, i + 1)
  {
    var x := names[i];
    var s0 := t0.staging;
    var r := SortOne(x, t, seen, paths, moveOk, done);
    assert x !in names[..i];
    assert x in t.staging <==> x in s0;
    SortOneFate(x, t, seen, paths, moveOk, done);
    forall j | 0 <= j < i + 1 ensures FateHeld(names[j], FateAt(names, s0, moveOk, j), s0, r.trees) {
      if j < i {
        FateHeldKept(names[j], FateAt(names, s0, moveOk, j), s0, t, r.trees, x);
      } else if x in s0 {
        FateHeldRebase(x, FateAt(names, s0, moveOk, j), t.staging, s0, r.trees);
      }
    }
  }

  /** One iteration of the second loop keeps the invariant. */
  lemma {:induction false} SortStep(names: seq<string>, t0: Trees, t: Trees, seen: Seen, deletions: seq<(string, string)>, i: nat,
                 paths: Paths, moveOk: (string, Target, Attempt) -> bool, done: nat)
    requires Distinct(names) && i < |names| && SortInv(names, t0, t, seen, deletions, i)
    ensures names[i] !in Keys(seen.images) && names[i] !in Keys(seen.videos)
    ensures var r := SortOne(names[i], t, seen, paths, moveOk, done);
      SortInv(names, t0, r.trees, r.seen,
              deletions + (if r.dup.Some? then [(names[i], r.dup.value)] else []), i + 1)
  {
    var x := names[i];
    assert x !in names[..i];
    var r := SortOne(x, t, seen, paths, moveOk, done);
    StagingStep(names, t0, t, r.trees, i);
    SeenStep(names, seen, r.seen, i);
    DeletionsStep(names, t, r.trees, deletions, i, seen, r.dup);
    GrowsTrans(t0, t, r.trees);
  }

  /**
   * One pass of the second loop's body for `names[i]`, after the cancel
   * check: the search, the deletion or the move, and the progress calls.
   */
  method SortNext(names: seq<string>, t0: Trees, paths: Paths, moveOk: (string, Target, Attempt) -> bool,
                  done0: nat, total: nat, i: nat, t: Trees, seen: Seen, log: seq<LogEntry>, progress: seq<nat>,
                  done: nat, ghost deletions: seq<(string, string)>)
    returns (t': Trees, seen': Seen, log': seq<LogEntry>, progress': seq<nat>, ghost deletions': seq<(string, string)>)
    requires Distinct(names) && i < |names| && total > 0 && done0 <= done
    requires SortInv(names, t0, t, seen, deletions, i)
    requires ProgressBetween(progress, done0, done, total)
    requires CountCode(log, DUPLICAT) == |deletions|
    requires FatesInv(names, t0.staging, moveOk, t, seen, i)
    requires ContentsHeld(names, t0.staging, moveOk, t0, t, i)
    ensures SortInv(names, t0, t', seen', deletions', i + 1)
    ensures FatesInv(names, t0.staging, moveOk, t', seen', i + 1)
    ensures ContentsHeld(names, t0.staging, moveOk, t0, t', i + 1)
    ensures ProgressBetween(progress', done0, done + 2, total)
    ensures CountCode(log', DUPLICAT) == |deletions'|
  {
    var x := names[i];
    SortStep(names, t0, t, seen, deletions, i, paths, moveOk, done);
    FateStep(names, t0, t, seen, i, paths, moveOk, done);
    ContentStep(names, t0, t, seen, i, paths, moveOk, done);
    var r := SortOne(x, t, seen, paths, moveOk, done);
    ProgressStep(progress, done0, done, total, r.marks);
    CountCodeAppend(log, r.entries, DUPLICAT);
    t' := r.trees;
    seen' := r.seen;
    log' := log + r.entries;
    progress' := progress + Percents(r.marks, total);
    deletions' := deletions + (if r.dup.Some? then [(x, r.dup.value)] else []);
  }

  /**
   * The second loop over `names`, the sorted renamed names.  The `k`-th
   * check of the cancel flag sees it set when `base + k in cancelled`;
   * `done_ops` starts
   * at `done0`.  The ghost `deletions` lists each deleted file with the
   * retained file it copies.
   */
  method SortAll(names: seq<string>, t0: Trees, paths: Paths, moveOk: (string, Target, Attempt) -> bool,
                 cancelled: iset<nat>, base: nat, done0: nat, total: nat)
    returns (t: Trees, log: seq<LogEntry>, progress: seq<nat>, done: nat, handled: nat, stopped: bool,
             ghost deletions: seq<(string, string)>)
    requires Sorted(names) && Distinct(names)
    requires names != [] ==> total > 0
    ensures handled <= |names|
    ensures stopped <==> handled < |names|
    ensures Uncancelled(cancelled, base, handled)
    ensures stopped ==> base + handled in cancelled
    ensures done == done0 + 2 * handled
    ensures names != [] ==> ProgressBetween(progress, done0, done, total)
    ensures names == [] ==> progress == []
    ensures stopped ==> EndsWith(log, StopEntry())
    ensures CountCode(log, DUPLICAT) == |deletions|
    ensures Grows(t0, t) && StagingInv(names, t0, t, handled) && DeletionsInv(names, t, deletions, handled)
    ensures FatesHeld(names, t0.staging, moveOk, t, handled)
    ensures ContentsHeld(names, t0.staging, moveOk, t0, t, handled)
  {
    t := t0;
    log := [];
    progress := [];
    done := done0;
    handled := 0;
    stopped := false;
    deletions := [];
    var seen := Seen([], []);
    while handled < |names|
      invariant handled <= |names| && !stopped
      invariant Uncancelled(cancelled, base, handled)
      invariant done == done0 + 2 * handled
      invariant names != [] ==> ProgressBetween(progress, done0, done, total)
      invariant names == [] ==> progress == []
      invariant CountCode(log, DUPLICAT) == |deletions|
      invariant SortInv(names, t0, t, seen, deletions, handled)
      invariant FatesInv(names, t0.staging, moveOk, t, seen, handled)
      invariant ContentsHeld(names, t0.staging, moveOk, t0, t, handled)
      decreases |names| - handled
    {
      CountCodeAppend(log, [StopEntry()], DUPLICAT);
      if base + handled in cancelled {
        log := log + [StopEntry()];
        stopped := true;
        break;
      }
      assert Uncancelled(cancelled, base, handled + 1);
      t, seen, log, progress, deletions :=
        SortNext(names, t0, paths, moveOk, done0, total, handled, t, seen, log, progress, done, deletions);
      done := done + 2;
      handled := handled + 1;
    }
  }

  /** A deleted file comes after the file it copies in the sorted order, and both were listed. */
  lemma {:induction false} DeletedOrder(names: seq<string>, i: nat, d: (string, string))
    requires Sorted(names) && Distinct(names) && i <= |names| && DeletedAsCopy(names, i, d)
    ensures Le(d.1, d.0) && d.1 != d.0
    ensures d.0 in names && d.1 in names
  {
    var a, b :| 0 <= a < b < i && names[a] == d.1 && names[b] == d.0;
  }

  lemma {:induction false} MarksBounded(k: nat, total: nat)
    requires k <= total && total > 0
    ensures forall j | 0 <= j < k :: Marks(k, total)[j] <= 100
  {
    MarksAt(k, total);
    forall j: nat | j < k ensures Marks(k, total)[j] <= 100 {
      PercentBounded(j + 1, total);
    }
  }

  /** Both loops' progress, then the final 100: never going down and never above 100. */
  lemma {:induction false} RunProgress(n: nat, prog2: seq<nat>, done: nat, total: nat)
    requires total == 3 * n && n <= done <= total
    requires n > 0 ==> ProgressBetween(prog2, n, done, total)
    requires n == 0 ==> prog2 == []
    ensures var p := Marks(n, total) + (prog2 + [100]);
      Nondecreasing(p) && forall k | 0 <= k < |p| :: p[k] <= 100
  {
    var m := Marks(n, total);
    if n == 0 {
      assert m + (prog2 + [100]) == [100];
    } else {
      MarksNondecreasing(n, total);
      MarksBounded(n, total);
      MarksAt(n, total);
      PercentBounded(done, total);
      NondecreasingAppend(m, prog2);
      var q := m + prog2;
      assert q[|q| - 1] <= 100;
      NondecreasingAppend(q, [100]);
      assert m + (prog2 + [100]) == q + [100];
    }
  }

  /** The second loop's lines between the step-2 banner and the closing line. */
  lemma {:induction false} FramedLog(log: seq<LogEntry>)
    ensures var e := [Step2Entry()] + log + [FinEntry()];
      && |e| >= 2 && e[0] == Step2Entry() && e[|e| - 1] == FinEntry()
      && CountCode(e, DUPLICAT) == CountCode(log, DUPLICAT)
  {
    CountCodeAppend([Step2Entry()], log, DUPLICAT);
    CountCodeAppend([Step2Entry()] + log, [FinEntry()], DUPLICAT);
    assert CountCode([Step2Entry()], DUPLICAT) == 0 by {
      assert [Step2Entry()][..0] == [];
    }
  }

  // ---------------------------------------------------------------------
  // The driver
  // ---------------------------------------------------------------------

  lemma {:induction false} LastOfAppend<T>(a: seq<T>, b: seq<T>)
    requires b != []
    ensures (a + b)[|a + b| - 1] == b[|b| - 1]
  {
  }

  function FinEntry(): LogEntry { LogEntry(FIN, "Traitement terminé", "") }

  function Step2Entry(): LogEntry { LogEntry(INFO, "Étape 2 : Détection doublons et déplacement...", "") }

  /**
   * The second loop over `sorted(renamed)`, with the flag read from the
   * `n`-th read on and `done_ops` starting at `n`: the trees only grow,
   * staging only loses files, and every deletion removed the later of two
   * renamed files.
   */
  method SortRenamed(renamed: seq<string>, t: Trees, paths: Paths, moveOk: (string, Target, Attempt) -> bool,
                     cancelled: iset<nat>, n: nat)
    returns (t': Trees, log: seq<LogEntry>, progress: seq<nat>, done: nat,
             names: seq<string>, handled: nat, stopped: bool, ghost deletions: seq<(string, string)>)
    requires Distinct(renamed) && |renamed| == n
    ensures Sorted(names) && Distinct(names) && multiset(names) == multiset(renamed) && |names| == n
    ensures handled <= n && (stopped <==> handled < n) && done == n + 2 * handled
    ensures Uncancelled(cancelled, n, handled) && (stopped ==> n + handled in cancelled)
    ensures FatesHeld(names, t.staging, moveOk, t', handled)
    ensures ContentsHeld(names, t.staging, moveOk, t, t', handled)
    ensures Grows(t, t') && StagingInv(names, t, t', handled)
    ensures n <= done <= 3 * n
    ensures n > 0 ==> ProgressBetween(progress, n, done, 3 * n)
    ensures n == 0 ==> progress == []
    ensures CountCode(log, DUPLICAT) == |deletions|
    ensures forall k | 0 <= k < |deletions| ::
      && Le(deletions[k].1, deletions[k].0) && deletions[k].1 != deletions[k].0
      && deletions[k].0 in renamed && deletions[k].1 in renamed
      && deletions[k].0 !in t'.staging
  {
    names := SortSeq(renamed);
    SortSeqDistinct(renamed);
    assert |names| == n by {
      assert |multiset(names)| == |multiset(renamed)|;
    }
    t', log, progress, done, handled, stopped, deletions := SortAll(names, t, paths, moveOk, cancelled, n, n, 3 * n);
    DeletionsOrdered(renamed, names, handled, t', deletions);
  }

  /** Each deleted file comes after the file it copies, and both were among the renamed names. */
  lemma {:induction false} DeletionsOrdered(renamed: seq<string>, names: seq<string>, handled: nat, t: Trees,
                                            deletions: seq<(string, string)>)
    requires Sorted(names) && Distinct(names) && multiset(names) == multiset(renamed) && handled <= |names|
    requires DeletionsInv(names, t, deletions, handled)
    ensures forall k | 0 <= k < |deletions| ::
      && Le(deletions[k].1, deletions[k].0) && deletions[k].1 != deletions[k].0
      && deletions[k].0 in renamed && deletions[k].1 in renamed
      && deletions[k].0 !in t.staging
  {
    forall k | 0 <= k < |deletions|
      ensures Le(deletions[k].1, deletions[k].0) && deletions[k].1 != deletions[k].0
      ensures deletions[k].0 in renamed && deletions[k].1 in renamed
    {
      DeletedOrder(names, handled, deletions[k]);
      assert deletions[k].0 in multiset(names) && deletions[k].1 in multiset(names);
    }
  }

  /**
   * Everything after a first loop that ran to the end over `n` files:
   * the step-2 banner, `os.makedirs(error_dir)`, the second loop over
   * `sorted(renamed)`, then `progress_callback(100)` and the closing line.
   * `phase1` is the progress the first loop reported.
   */
  method SortPhase(renamed: seq<string>, t: Trees, paths: Paths, moveOk: (string, Target, Attempt) -> bool,
                   cancelled: iset<nat>, n: nat, phase1: seq<nat>)
    returns (t': Trees, entries: seq<LogEntry>, progress: seq<nat>,
             names: seq<string>, handled: nat, stopped: bool, ghost deletions: seq<(string, string)>)
    requires Distinct(renamed) && |renamed| == n
    requires phase1 == Marks(n, 3 * n)
    ensures Sorted(names) && Distinct(names) && multiset(names) == multiset(renamed) && |names| == n
    ensures handled <= n && (stopped <==> handled < n)
    ensures Uncancelled(cancelled, n, handled) && (stopped ==> n + handled in cancelled)
    ensures FatesHeld(names, t.staging, moveOk, t', handled)
    ensures ContentsHeld(names, t.staging, moveOk, t, t', handled)
    ensures forall y | y in t.staging && y !in names[..handled] :: y in t'.staging
    ensures forall j | 0 <= j < handled :: names[j] in t.staging && UnsupportedName(names[j]) ==> names[j] in t'.staging
    ensures Grows(t.(quarantineExists := true), t') && t'.quarantineExists
    ensures forall y | y in t'.staging :: y in t.staging && t'.staging[y] == t.staging[y]
    ensures |entries| >= 2 && entries[0] == Step2Entry() && entries[|entries| - 1] == FinEntry()
    ensures EndsWith(progress, 100)
    ensures Nondecreasing(phase1 + progress)
    ensures forall k | 0 <= k < |phase1 + progress| :: (phase1 + progress)[k] <= 100
    ensures CountCode(entries, DUPLICAT) == |deletions|
    ensures forall k | 0 <= k < |deletions| ::
      && Le(deletions[k].1, deletions[k].0) && deletions[k].1 != deletions[k].0
      && deletions[k].0 in renamed && deletions[k].1 in renamed
      && deletions[k].0 !in t'.staging
  {
    var total := 3 * n;
    var t1 := t.(quarantineExists := true);
    var t2, log2, prog2, done;
    ghost var dels;
    t2, log2, prog2, done, names, handled, stopped, dels := SortRenamed(renamed, t1, paths, moveOk, cancelled, n);
    ContentsHeldBefore(names, t.staging, moveOk, t1, t, t2, handled);
    t' := t2;
    deletions := dels;
    entries := [Step2Entry()] + log2 + [FinEntry()];
    FramedLog(log2);
    progress := prog2 + [100];
    RunProgress(n, prog2, done, total);
  }

  /**
   * A run whose first loop went to the end: `files` is the listing of
   * the staging directory `s0`, `renamed` the names the first loop kept for
   * them and `staged` the staging directory it left, with each file's
   * content under its kept name.
   */
  ghost predicate RenamedRun(s0: map<string, MediaFile>, appListing: set<string>, renameOk: (string, string) -> bool,
                             files: seq<string>, renamed: seq<string>, staged: map<string, MediaFile>)
  {
    && Distinct(files) && Elems(files) == s0.Keys
    && |renamed| == |files| && RenameDecided(files, NormalForms(files, NormalOf(appListing)), renameOk, renamed)
    && staged.Keys == Elems(renamed)
    && (forall j | 0 <= j < |files| :: renamed[j] in staged && staged[renamed[j]] == s0[files[j]])
  }

  /**
   * A run whose first loop was cut short: the flag was clear at the reads
   * before the `|renamed|` files handled and set at the next one; each
   * handled file has its content under its kept name and every file not
   * reached is still there under its own name.
   */
  ghost predicate StoppedRename(s0: map<string, MediaFile>, appListing: set<string>, renameOk: (string, string) -> bool,
                                cancelled: iset<nat>, files: seq<string>, renamed: seq<string>,
                                staged: map<string, MediaFile>)
  {
    && |renamed| < |files| && |renamed| in cancelled && Uncancelled(cancelled, 0, |renamed|)
    && RenameDecided(files, NormalForms(files, NormalOf(appListing)), renameOk, renamed)
    && (forall j | 0 <= j < |renamed| :: files[j] in s0 && renamed[j] in staged && staged[renamed[j]] == s0[files[j]])
    && (forall j | |renamed| <= j < |files| :: files[j] in s0 && files[j] in staged && staged[files[j]] == s0[files[j]])
  }

  /** A cut-short first loop loses no file: each content of the staging directory is still in it. */
  lemma {:induction false} StoppedKeepsFiles(s0: map<string, MediaFile>, appListing: set<string>,
                                             renameOk: (string, string) -> bool, cancelled: iset<nat>,
                                             files: seq<string>, renamed: seq<string>, staged: map<string, MediaFile>)
    requires Elems(files) == s0.Keys
    requires StoppedRename(s0, appListing, renameOk, cancelled, files, renamed, staged)
    ensures forall y | y in s0 :: exists m :: m in staged && staged[m] == s0[y]
  {
    forall y | y in s0 ensures exists m :: m in staged && staged[m] == s0[y] {
      assert y in Elems(files);
      var j :| 0 <= j < |files| && files[j] == y;
      if j < |renamed| {
        assert renamed[j] in staged && staged[renamed[j]] == s0[y];
      } else {
        assert files[j] in staged && staged[files[j]] == s0[y];
      }
    }
  }

  /**
   * The second loop after such a run: `names` is `sorted(renamed)`, of which
   * it reached the first `handled`, each file it reached ended in the
   * trees `t` as its fate over `staged` says, and each destination holds
   * the last file delivered there or else what it held in `before`.
   */
  ghost predicate SortedRun(renamed: seq<string>, staged: map<string, MediaFile>, moveOk: (string, Target, Attempt) -> bool,
                            names: seq<string>, handled: nat, before: Trees, t: Trees)
  {
    && Sorted(names) && multiset(names) == multiset(renamed)
    && handled <= |names|
    && FatesHeld(names, staged, moveOk, t, handled)
    && ContentsHeld(names, staged, moveOk, before, t, handled)
  }

  /**
   * How far the second loop over `count` names got, its reads of the flag
   * coming after the `n` of the first loop: clear before each of the
   * `handled` names it reached, and set at the next read when it stopped
   * early.
   */
  ghost predicate SecondLoopReads(cancelled: iset<nat>, n: nat, count: nat, handled: nat) {
    Uncancelled(cancelled, n, handled) && (handled < count ==> n + handled in cancelled)
  }

  /** With the flag clear at every read of the second loop, it reaches every name. */
  lemma {:induction false} SecondLoopComplete(cancelled: iset<nat>, n: nat, count: nat, handled: nat)
    requires handled <= count && SecondLoopReads(cancelled, n, count, handled)
    requires forall k: nat | n <= k < n + count :: k !in cancelled
    ensures handled == count
  {
  }

  /**
   * The rest of a run whose first loop went to the end over `n` files:
   * `log1` and `phase1` are what that loop logged and reported, `staged`
   * the staging directory it left in the trees `t0`.
   */
  method FinishRun(t0: Trees, staged: map<string, MediaFile>, renamed: seq<string>, paths: Paths, moveOk: (string, Target, Attempt) -> bool,
                   cancelled: iset<nat>, n: nat, log1: seq<LogEntry>, phase1: seq<nat>)
    returns (t: Trees, log: seq<LogEntry>, progress: seq<nat>, names: seq<string>, handled: nat,
             ghost deletions: seq<(string, string)>)
    requires Distinct(renamed) && |renamed| == n
    requires phase1 == Marks(n, 3 * n) && CountCode(log1, DUPLICAT) == 0
    ensures Grows(t0.(quarantineExists := true), t) && t.quarantineExists
    ensures EndsWith(log, FinEntry())
    ensures EndsWith(progress, 100)
    ensures Nondecreasing(progress) && forall k | 0 <= k < |progress| :: progress[k] <= 100
    ensures CountCode(log, DUPLICAT) == |deletions|
    ensures forall k | 0 <= k < |deletions| ::
      Le(deletions[k].1, deletions[k].0) && deletions[k].1 != deletions[k].0 && deletions[k].0 !in t.staging
    ensures SortedRun(renamed, staged, moveOk, names, handled, t0, t)
    ensures SecondLoopReads(cancelled, n, |names|, handled)
  {
    var entries, prog2, stopped;
    var t1 := t0.(staging := staged);
    t, entries, prog2, names, handled, stopped, deletions := SortPhase(renamed, t1, paths, moveOk, cancelled, n, phase1);
    GrowsIgnoresStaging(t0.(quarantineExists := true), staged, t);
    ContentsHeldBefore(names, staged, moveOk, t1, t0, t, handled);
    assert t1.(quarantineExists := true) == t0.(quarantineExists := true).(staging := staged);
    CountCodeAppend(log1, entries, DUPLICAT);
    LastOfAppend(log1, entries);
    log := log1 + entries;
    LastOfAppend(phase1, prog2);
    progress := phase1 + prog2;
  }

  /**
   * The run once the save directory is known to exist: `files` is the sorted
   * listing of the staging directory.  `stopped` says that the flag was read
   * as set during the first loop.
   */
  method SortStaging(t0: Trees, files: seq<string>, appListing: set<string>, paths: Paths,
                     renameOk: (string, string) -> bool, moveOk: (string, Target, Attempt) -> bool,
                     cancelled: iset<nat>)
    returns (t: Trees, log: seq<LogEntry>, progress: seq<nat>, ghost deletions: seq<(string, string)>,
             renamed: seq<string>, staged: map<string, MediaFile>,
             names: seq<string>, handled: nat, stopped: bool)
    requires Distinct(files) && Elems(files) == t0.staging.Keys
    ensures stopped <==> exists k: nat | k < |files| :: k in cancelled
    ensures stopped ==>
      && t == t0.(staging := staged)
      && EndsWith(log, StopEntry())
      && deletions == []
    ensures stopped ==> StoppedRename(t0.staging, appListing, renameOk, cancelled, files, renamed, staged)
    ensures !stopped ==>
      && Grows(t0.(quarantineExists := true), t)
      && t.quarantineExists
      && EndsWith(log, FinEntry())
      && EndsWith(progress, 100)
    ensures !stopped ==> RenamedRun(t0.staging, appListing, renameOk, files, renamed, staged)
    ensures !stopped ==> SortedRun(renamed, staged, moveOk, names, handled, t0, t)
    ensures !stopped ==> SecondLoopReads(cancelled, |files|, |names|, handled)
    ensures Nondecreasing(progress)
    ensures forall k | 0 <= k < |progress| :: progress[k] <= 100
    ensures CountCode(log, DUPLICAT) == |deletions|
    ensures forall k | 0 <= k < |deletions| ::
      Le(deletions[k].1, deletions[k].0) && deletions[k].1 != deletions[k].0 && deletions[k].0 !in t.staging
  {
    var log1, prog1;
    staged, renamed, log1, prog1, stopped := RenamePhase(t0.staging, files, appListing, renameOk, cancelled);
    if stopped {
      t := t0.(staging := staged);
      log := log1;
      progress := prog1;
      deletions := [];
      names, handled := [], 0;
    } else {
      t, log, progress, names, handled, deletions := FinishRun(t0, staged, renamed, paths, moveOk, cancelled, |files|, log1, prog1);
    }
  }

  /**
   * `process_files_individually`.  `saveExists` is `os.path.isdir(save_path)`,
   * `t0.staging` the regular files of the staging directory, `appListing`
   * the listing of the tool's own directory that `_normalize_filename`
   * consults.  The `k`-th read of the cancel flag over the whole run sees it
   * set when `k in cancelled`.  The ghost `deletions` lists each deleted duplicate
   * with the retained file it copies.
   */
  method ProcessFilesIndividually(saveExists: bool, t0: Trees, appListing: set<string>, paths: Paths,
                                  renameOk: (string, string) -> bool, moveOk: (string, Target, Attempt) -> bool,
                                  cancelled: iset<nat>)
    returns (t: Trees, log: seq<LogEntry>, progress: seq<nat>, ghost deletions: seq<(string, string)>,
             files: seq<string>, renamed: seq<string>, staged: map<string, MediaFile>,
             names: seq<string>, handled: nat, stopped: bool)
    ensures !saveExists ==>
      t == t0 && log == [LogEntry(ERREUR, "Dossier de sauvegarde introuvable", paths.save)] && progress == []
    ensures saveExists ==> Sorted(files) && (stopped <==> exists k: nat | k < |t0.staging| :: k in cancelled)
    ensures saveExists && stopped ==>
      && t == t0.(staging := staged)
      && EndsWith(log, StopEntry())
      && deletions == []
    ensures saveExists && stopped ==> StoppedRename(t0.staging, appListing, renameOk, cancelled, files, renamed, staged)
    ensures saveExists && !stopped ==>
      && Grows(t0.(quarantineExists := true), t)
      && t.quarantineExists
      && EndsWith(log, FinEntry())
      && EndsWith(progress, 100)
    ensures saveExists && !stopped ==> RenamedRun(t0.staging, appListing, renameOk, files, renamed, staged)
    ensures saveExists && !stopped ==> SortedRun(renamed, staged, moveOk, names, handled, t0, t)
    ensures saveExists && !stopped ==> SecondLoopReads(cancelled, |files|, |names|, handled)
    ensures Nondecreasing(progress)
    ensures forall k | 0 <= k < |progress| :: progress[k] <= 100
    ensures CountCode(log, DUPLICAT) == |deletions|
    ensures forall k | 0 <= k < |deletions| ::
      Le(deletions[k].1, deletions[k].0) && deletions[k].1 != deletions[k].0 && deletions[k].0 !in t.staging
  {
    if !saveExists {
      t := t0;
      log := [LogEntry(ERREUR, "Dossier de sauvegarde introuvable", paths.save)];
      progress := [];
      deletions := [];
      files, renamed, staged, names, handled, stopped := [], [], map[], [], 0, false;
    } else {
      files := SortedListing(t0.staging.Keys);
      assert Elems(files) == t0.staging.Keys;
      assert |files| == |t0.staging|;
      t, log, progress, deletions, renamed, staged, names, handled, stopped :=
        SortStaging(t0, files, appListing, paths, renameOk, moveOk, cancelled);
    }
  }
}
