/**
 * `run_adb_download` (adb_tools.py): checks that exactly the right kind of
 * phone answers `adb devices`, lists the first camera directory that has
 * files, and pulls each photo or video whose name is not yet in the local
 * photo or video tree, until the user cancels.
 *
 * What the `adb` subprocesses print comes in as data: the lines of
 * `adb devices`, and for each candidate directory the lines `adb shell ls`
 * prints or the failure it reports.  Whether a pull raises, and what the
 * cancel flag reads, are oracles indexed by the file's position.
 */
module AdbTools {
  import opened Wrappers
  import opened Text
  import opened SortTools

  // ---------------------------------------------------------------------
  // `_list_all_files`
  // ---------------------------------------------------------------------

  /**
   * A local tree, as `os.walk` visits it: the file names of each directory it
   * yields, or `None` when the root is not a directory.
   */
  type Walk = Option<seq<seq<string>>>

  /** The names of all files anywhere in the tree, without their directories. */
  function Basenames(tree: Walk): (r: set<string>)
    ensures tree.None? ==> r == {}
    ensures tree.Some? ==> forall f :: f in r <==> exists d | d in tree.value :: f in d
  {
    if tree.None? then {}
    else
      var w := tree.value;
      var r := set i, j | 0 <= i < |w| && 0 <= j < |w[i]| :: w[i][j];
      assert forall f :: f in r <==> exists d | d in w :: f in d by {
        forall f ensures f in r <==> exists d | d in w :: f in d {
          if f in r {
            var i, j :| 0 <= i < |w| && 0 <= j < |w[i]| && w[i][j] == f;
            assert w[i] in w;
          }
          if exists d | d in w :: f in d {
            var d :| d in w && f in d;
            var i :| 0 <= i < |w| && w[i] == d;
            var j :| 0 <= j < |d| && d[j] == f;
            assert w[i][j] == f;
          }
        }
      }
      r
  }

  /** `_list_all_files(root_dir)`: a set filled directory by directory, file by file. */
  method ListAllFiles(tree: Walk) returns (all: set<string>)
    ensures all == Basenames(tree)
  {
    all := {};
    if tree.Some? {
      var w := tree.value;
      var i := 0;
      while i < |w|
        invariant 0 <= i <= |w|
        invariant all == set a, b | 0 <= a < i && 0 <= b < |w[a]| :: w[a][b]
      {
        var j := 0;
        while j < |w[i]|
          invariant 0 <= j <= |w[i]|
          invariant all == (set a, b | 0 <= a < i && 0 <= b < |w[a]| :: w[a][b]) + (set b | 0 <= b < j :: w[i][b])
        {
          all := all + {w[i][j]};
          j := j + 1;
        }
        i := i + 1;
      }
    }
  }

  // ---------------------------------------------------------------------
  // The device check
  // ---------------------------------------------------------------------

  /** What `adb devices` gives: the lines of its stripped output, or the exception it raised. */
  datatype Call = Output(lines: seq<string>) | Raised(repr: string)

  /** The verdict on `adb devices`, in the order the code tests them. */
  datatype DeviceStatus = Unreachable(repr: string) | NoList | Unauthorized | Offline | NoDevice | Ready

  /** A device line reports `status` when its stripped text ends with a tab and the status. */
  predicate HasStatus(line: string, status: string) {
    EndsWith(Strip(line), "\t" + status)
  }

  /** `[line for line in lines if line.strip().endswith("\t" + status)]`. */
  function Having(lines: seq<string>, status: string): (r: seq<string>)
    ensures |r| <= |lines|
    ensures forall l :: l in r <==> l in lines && HasStatus(l, status)
  {
    if lines == [] then []
    else
      var init, last := lines[..|lines| - 1], lines[|lines| - 1];
      assert lines == init + [last];
      var r0 := Having(init, status);
      if HasStatus(last, status) then r0 + [last] else r0
  }

  /** Some line after the header reports `status`. */
  predicate AnyStatus(lines: seq<string>, status: string)
    requires |lines| >= 1
  {
    exists l | l in lines[1..] :: HasStatus(l, status)
  }

  /**
   * The checks of `run_adb_download` on `adb devices`: fewer than two lines
   * means no device list; after the header line, any unauthorized device
   * stops it, then any offline device, then the absence of a ready one.
   */
  function Classify(devices: Call): (r: DeviceStatus)
    ensures r.Unreachable? <==> devices.Raised?
    ensures devices.Raised? ==> r == Unreachable(devices.repr)
    ensures devices.Output? ==>
      var ls := devices.lines;
      && (r == NoList <==> |ls| < 2)
      && (|ls| >= 2 ==>
        && (r == Unauthorized <==> AnyStatus(ls, "unauthorized"))
        && (r == Offline <==> !AnyStatus(ls, "unauthorized") && AnyStatus(ls, "offline"))
        && (r == NoDevice <==> !AnyStatus(ls, "unauthorized") && !AnyStatus(ls, "offline") && !AnyStatus(ls, "device"))
        && (r == Ready <==> !AnyStatus(ls, "unauthorized") && !AnyStatus(ls, "offline") && AnyStatus(ls, "device")))
  {
    match devices
    case Raised(e) => Unreachable(e)
    case Output(ls) =>
      if |ls| < 2 then NoList
      else
        var rest := ls[1..];
        var connected, unauthorized, offline := Having(rest, "device"), Having(rest, "unauthorized"), Having(rest, "offline");
        assert unauthorized != [] <==> AnyStatus(ls, "unauthorized") by {
          if unauthorized != [] { assert unauthorized[0] in unauthorized; }
        }
        assert offline != [] <==> AnyStatus(ls, "offline") by {
          if offline != [] { assert offline[0] in offline; }
        }
        assert connected != [] <==> AnyStatus(ls, "device") by {
          if connected != [] { assert connected[0] in connected; }
        }
        if unauthorized != [] then Unauthorized
        else if offline != [] then Offline
        else if connected == [] then NoDevice
        else Ready
  }

  // ---------------------------------------------------------------------
  // The camera directory
  // ---------------------------------------------------------------------

  /** The directories `run_adb_download` tries, in this order. */
  const PossiblePaths: seq<string> := ["/sdcard/DCIM/Camera", "/storage/emulated/0/DCIM/Camera", "/sdcard/DCIM/100MEDIA", "/sdcard/DCIM/OpenCamera"]

  /** The non-empty stripped names among the first `k` lines of an `ls` output, in order. */
  function ListingUpTo(lines: seq<string>, k: nat): (r: seq<string>)
    requires k <= |lines|
    ensures |r| <= k
    ensures forall x | x in r :: x != ""
  {
    if k == 0 then []
    else
      var r0 := ListingUpTo(lines, k - 1);
      var name := Strip(lines[k - 1]);
      if name != "" then r0 + [name] else r0
  }

  /** A name is listed exactly when it is a non-empty stripped line. */
  lemma {:induction false} ListingUpToMembers(lines: seq<string>, k: nat, x: string)
    requires k <= |lines|
    ensures x in ListingUpTo(lines, k) <==> x != "" && exists l | 0 <= l < k :: Strip(lines[l]) == x
  {
    if k > 0 {
      ListingUpToMembers(lines, k - 1, x);
      if x != "" && Strip(lines[k - 1]) == x {
        assert x in ListingUpTo(lines, k);
      }
      if x in ListingUpTo(lines, k) && x !in ListingUpTo(lines, k - 1) {
        assert Strip(lines[k - 1]) == x;
      }
    }
  }

  /** `[f.strip() for f in output.splitlines() if f.strip()]`. */
  function Listing(lines: seq<string>): seq<string> {
    ListingUpTo(lines, |lines|)
  }

  /** The listing holds exactly the non-empty stripped lines. */
  lemma ListingMembers(lines: seq<string>)
    ensures |Listing(lines)| <= |lines|
    ensures forall x :: x in Listing(lines) <==> x != "" && exists l | l in lines :: Strip(l) == x
  {
    forall x ensures x in Listing(lines) <==> x != "" && exists l | l in lines :: Strip(l) == x {
      ListingUpToMembers(lines, |lines|, x);
      if x != "" && exists l | l in lines :: Strip(l) == x {
        var l :| l in lines && Strip(l) == x;
        var k :| 0 <= k < |lines| && lines[k] == l;
      }
    }
  }

  /** A directory gives nothing when `adb shell ls` fails on it or lists no name. */
  predicate Barren(ls: string -> Option<seq<string>>, path: string) {
    ls(path).None? || Listing(ls(path).value) == []
  }

  /** The listing of the first of `paths[i..]` that has a name in it, or nothing. */
  function FirstFrom(ls: string -> Option<seq<string>>, paths: seq<string>, i: nat): (r: seq<string>)
    requires i <= |paths|
    ensures r == [] <==> forall j | i <= j < |paths| :: Barren(ls, paths[j])
    decreases |paths| - i
  {
    if i == |paths| then []
    else if !Barren(ls, paths[i]) then Listing(ls(paths[i]).value)
    else FirstFrom(ls, paths, i + 1)
  }

  /** The listing of the first of `paths` that has a name in it, or nothing. */
  function FirstListing(ls: string -> Option<seq<string>>, paths: seq<string>): seq<string> {
    FirstFrom(ls, paths, 0)
  }

  /** Nothing is found exactly when every directory gives nothing. */
  lemma FirstListingEmpty(ls: string -> Option<seq<string>>, paths: seq<string>)
    ensures FirstListing(ls, paths) == [] <==> forall i | 0 <= i < |paths| :: Barren(ls, paths[i])
  {
  }

  lemma {:induction false} FirstFromFound(ls: string -> Option<seq<string>>, paths: seq<string>, i: nat)
    requires i <= |paths|
    ensures var r := FirstFrom(ls, paths, i);
      r != [] ==> exists k | i <= k < |paths| ::
        && (forall j | i <= j < k :: Barren(ls, paths[j]))
        && ls(paths[k]).Some? && r == Listing(ls(paths[k]).value)
    decreases |paths| - i
  {
    if i < |paths| && Barren(ls, paths[i]) {
      FirstFromFound(ls, paths, i + 1);
      var r := FirstFrom(ls, paths, i);
      if r != [] {
        var k :| i + 1 <= k < |paths| && (forall j | i + 1 <= j < k :: Barren(ls, paths[j])) && ls(paths[k]).Some? && r == Listing(ls(paths[k]).value);
        assert forall j | i <= j < k :: Barren(ls, paths[j]);
      }
    }
  }

  /** A listing that is found comes from a directory all of whose predecessors gave nothing. */
  lemma FirstListingFound(ls: string -> Option<seq<string>>, paths: seq<string>)
    ensures var r := FirstListing(ls, paths);
      r != [] ==> exists i | 0 <= i < |paths| ::
        && (forall j | 0 <= j < i :: Barren(ls, paths[j]))
        && ls(paths[i]).Some? && r == Listing(ls(paths[i]).value)
  {
    FirstFromFound(ls, paths, 0);
  }

  /** The loop over `possible_paths`: skip a directory whose `ls` fails, stop at the first one with files. */
  method SelectRemote(ls: string -> Option<seq<string>>) returns (remote: seq<string>)
    ensures remote == FirstListing(ls, PossiblePaths)
  {
    remote := [];
    var i := 0;
    while i < |PossiblePaths|
      invariant 0 <= i <= |PossiblePaths|
      invariant FirstListing(ls, PossiblePaths) == FirstFrom(ls, PossiblePaths, i)
    {
      var path := PossiblePaths[i];
      var out := ls(path);
      if out.Some? {
        var files := Listing(out.value);
        if files != [] {
          remote := files;
          return;
        }
      }
      i := i + 1;
    }
  }

  // ---------------------------------------------------------------------
  // The download loop
  // ---------------------------------------------------------------------

  /**
   * What the loop needs besides the remote names: where to save, the names
   * already present, which kinds to fetch, and how a name's extension is
   * classified (`KindOf` below, which `RunAdbDownload` passes in).
   */
  datatype Setup = Setup(savePath: string, photos: set<string>, videos: set<string>, wantPhotos: bool, wantVideos: bool,
                         kindOf: string -> Option<Kind>)

  /**
   * `os.path.splitext(name)[1].lower() == e` for an extension `e` made of a
   * dot and lower-case letters, read off the end of the name: the last
   * `|e|` characters lower-case to `e`, and something other than a dot comes
   * before them.
   */
  predicate HasExt(name: string, e: string) {
    |e| < |name| && Lower(name[|name| - |e|..]) == e && exists k | 0 <= k < |name| - |e| :: name[k] != '.'
  }

  /** `HasExt` is the driver's lower-cased extension test. */
  lemma {:induction false} HasExtIsLowerExt(name: string, e: string)
    requires e == ".jpg" || e == ".mp4"
    ensures HasExt(name, e) <==> LowerExt(name) == e
  {
    var n := |name|;
    var (stem, ext) := SplitExt(name);
    if LowerExt(name) == e {
      assert |ext| == 4 && ext != "";
      var d :| d == LastPos(name, '.').value;
      assert ext == name[d..] && !(forall k | 0 <= k < d :: name[k] == '.');
      assert d == n - 4;
    }
    if HasExt(name, e) {
      var t := name[n - 4..];
      assert LowerChar(t[0]) == '.' && LowerChar(t[1]) == e[1] && LowerChar(t[2]) == e[2] && LowerChar(t[3]) == e[3];
      assert name[n - 4] == '.' && name[n - 3] != '.' && name[n - 2] != '.' && name[n - 1] != '.';
      var d := LastPos(name, '.').value;
      assert d == n - 4;
      var k :| 0 <= k < n - 4 && name[k] != '.';
      assert !(forall j | 0 <= j < d :: name[j] == '.');
      assert ext == t;
    }
  }

  /** What the lower-cased extension makes of a remote file: a photo, a video, or neither. */
  function KindOf(name: string): Option<Kind> {
    if HasExt(name, ".jpg") then Some(Photo) else if HasExt(name, ".mp4") then Some(Video) else None
  }

  /** `.jpg` is a photo, `.mp4` a video, any other extension neither. */
  lemma KindOfExt(name: string)
    ensures KindOf(name) == Some(Photo) <==> LowerExt(name) == ".jpg"
    ensures KindOf(name) == Some(Video) <==> LowerExt(name) == ".mp4"
    ensures KindOf(name) == None <==> LowerExt(name) != ".jpg" && LowerExt(name) != ".mp4"
  {
    HasExtIsLowerExt(name, ".jpg");
    HasExtIsLowerExt(name, ".mp4");
  }

  /** What the loop does with one remote file. */
  datatype Decision = PhotosOff | VideosOff | HavePhoto | HaveVideo | Fetch | Foreign

  /** The tests of the loop body, in order, on the kind of the file. */
  function Decide(name: string, cfg: Setup): Decision {
    var kind := cfg.kindOf(name);
    if kind == Some(Photo) && !cfg.wantPhotos then PhotosOff
    else if kind == Some(Video) && !cfg.wantVideos then VideosOff
    else if kind == Some(Photo) && name in cfg.photos then HavePhoto
    else if kind == Some(Video) && name in cfg.videos then HaveVideo
    else if kind.Some? then Fetch
    else Foreign
  }

  /**
   * What the tests amount to on the lower-cased extension: a disabled kind
   * is skipped, a photo (video) whose name is already in the photo (video)
   * tree is skipped, any other `.jpg` or `.mp4` is fetched, and the rest is
   * not supported.
   */
  lemma DecideCases(name: string, cfg: Setup)
    requires cfg.kindOf(name) == KindOf(name)
    ensures var d, e := Decide(name, cfg), LowerExt(name);
      && (d == PhotosOff <==> e == ".jpg" && !cfg.wantPhotos)
      && (d == VideosOff <==> e == ".mp4" && !cfg.wantVideos)
      && (d == HavePhoto <==> e == ".jpg" && cfg.wantPhotos && name in cfg.photos)
      && (d == HaveVideo <==> e == ".mp4" && cfg.wantVideos && name in cfg.videos)
      && (d == Fetch <==> (e == ".jpg" && cfg.wantPhotos && name !in cfg.photos) || (e == ".mp4" && cfg.wantVideos && name !in cfg.videos))
      && (d == Foreign <==> e != ".jpg" && e != ".mp4")
  {
    KindOfExt(name);
  }

  /** One `adb pull <remote> <local>`. */
  datatype Pull = Pull(remote: string, local: string)

  /** The directory every pull reads from, whichever directory was listed. */
  const CameraDir: string := "/sdcard/DCIM/Camera"

  function PullOf(cfg: Setup, name: string): Pull {
    Pull(CameraDir + "/" + name, PathJoin(cfg.savePath, name))
  }

  /** One line passed to `log_callback`. */
  datatype Note =
    | Refused(status: DeviceStatus)
    | Interrupted
    | Disabled(photo: bool, name: string)
    | Present(photo: bool, name: string)
    | Download(name: string)
    | PullError(name: string, repr: string)
    | NotSupported(name: string)
    | Summary(downloaded: nat, ignored: nat)

  function Message(n: Note): string {
    match n
    case Refused(s) =>
      (match s
       case Unreachable(e) => "[ERREUR] Impossible d'exécuter adb : " + e
       case NoList => "[ERREUR] Aucun appareil détecté (liste vide)."
       case Unauthorized => "[ERREUR] Appareil non autorisé. Acceptez la clé RSA sur le téléphone."
       case Offline => "[ERREUR] Appareil hors ligne. Redémarrez ADB ou reconnectez le câble."
       case NoDevice => "[ERREUR] Aucun appareil connecté (pas de statut 'device')."
       case Ready => "")
    case Interrupted => "[INFO] Téléchargement interrompu par l'utilisateur."
    case Disabled(p, f) => (if p then "[IGNORÉ] Photos désactivées : " else "[IGNORÉ] Vidéos désactivées : ") + f
    case Present(p, f) => (if p then "[IGNORÉ] Photo déjà présente : " else "[IGNORÉ] Vidéo déjà présente : ") + f
    case Download(f) => "[DL] Téléchargement : " + f
    case PullError(f, e) => "[ERREUR] " + f + " : " + e
    case NotSupported(f) => "[IGNORÉ] Fichier non pris en charge : " + f
    case Summary(d, i) => "[FIN] " + NatToString(d) + " fichier(s) téléchargé(s), " + NatToString(i) + " ignoré(s)."
  }

  /**
   * The log lines the loop body writes for file `i`, named `name`; `pull(i)`
   * is the exception `subprocess.run` raised on its pull, if any.
   */
  function FileNotes(cfg: Setup, pull: nat -> Option<string>, i: nat, name: string): seq<Note> {
    match Decide(name, cfg)
    case PhotosOff => [Disabled(true, name)]
    case VideosOff => [Disabled(false, name)]
    case HavePhoto => [Present(true, name)]
    case HaveVideo => [Present(false, name)]
    case Foreign => [NotSupported(name)]
    case Fetch => if pull(i).None? then [Download(name)] else [Download(name), PullError(name, pull(i).value)]
  }

  /** The pull the loop body runs for a file, if any. */
  function FilePulls(cfg: Setup, name: string): seq<Pull> {
    if Decide(name, cfg) == Fetch then [PullOf(cfg, name)] else []
  }

  /** What file `i` adds to `downloaded_files`: 1 when it is pulled and `subprocess.run` returns. */
  function FileCount(cfg: Setup, pull: nat -> Option<string>, i: nat, name: string): nat {
    if Decide(name, cfg) == Fetch && pull(i).None? then 1 else 0
  }

  /** The log lines of the first `n` remote files. */
  function Notes(remote: seq<string>, cfg: Setup, pull: nat -> Option<string>, n: nat): seq<Note>
    requires n <= |remote|
  {
    if n == 0 then [] else Notes(remote, cfg, pull, n - 1) + FileNotes(cfg, pull, n - 1, remote[n - 1])
  }

  /** The pulls run for the first `n` remote files. */
  function Pulls(remote: seq<string>, cfg: Setup, n: nat): seq<Pull>
    requires n <= |remote|
  {
    if n == 0 then []
    else Pulls(remote, cfg, n - 1) + FilePulls(cfg, remote[n - 1])
  }

  /** `downloaded_files` after the first `n` remote files: a pull counts when `subprocess.run` returns, whatever the exit status. */
  function Downloaded(remote: seq<string>, cfg: Setup, pull: nat -> Option<string>, n: nat): (r: nat)
    requires n <= |remote|
    ensures r <= n
  {
    if n == 0 then 0
    else Downloaded(remote, cfg, pull, n - 1) + FileCount(cfg, pull, n - 1, remote[n - 1])
  }

  /** The pull errors among the first `k` log lines. */
  function FailuresIn(log: seq<Note>, k: nat): (r: nat)
    requires k <= |log|
    ensures r <= k
  {
    if k == 0 then 0 else FailuresIn(log, k - 1) + (if log[k - 1].PullError? then 1 else 0)
  }

  /** The pull errors among the log lines. */
  function Failures(log: seq<Note>): nat {
    FailuresIn(log, |log|)
  }

  lemma {:induction false} FailuresInPrefix(a: seq<Note>, b: seq<Note>, k: nat)
    requires k <= |a|
    ensures FailuresIn(a + b, k) == FailuresIn(a, k)
  {
    if k > 0 {
      FailuresInPrefix(a, b, k - 1);
      assert (a + b)[k - 1] == a[k - 1];
    }
  }

  lemma {:induction false} FailuresInSuffix(a: seq<Note>, b: seq<Note>, k: nat)
    requires k <= |b|
    ensures FailuresIn(a + b, |a| + k) == FailuresIn(a, |a|) + FailuresIn(b, k)
  {
    if k == 0 {
      FailuresInPrefix(a, b, |a|);
    } else {
      FailuresInSuffix(a, b, k - 1);
      assert (a + b)[|a| + k - 1] == b[k - 1];
    }
  }

  lemma FailuresAppend(a: seq<Note>, b: seq<Note>)
    ensures Failures(a + b) == Failures(a) + Failures(b)
  {
    FailuresInSuffix(a, b, |b|);
  }

  /** A file's log lines hold an error exactly when its pull raised. */
  lemma FileFailures(cfg: Setup, pull: nat -> Option<string>, i: nat, name: string)
    ensures FileCount(cfg, pull, i, name) + Failures(FileNotes(cfg, pull, i, name)) == |FilePulls(cfg, name)|
  {
    var notes := FileNotes(cfg, pull, i, name);
    assert FailuresIn(notes, 1) == 0;
  }

  /** There is at most one pull per file. */
  lemma {:induction false} PullsAtMost(remote: seq<string>, cfg: Setup, n: nat)
    requires n <= |remote|
    ensures |Pulls(remote, cfg, n)| <= n
  {
    if n > 0 {
      PullsAtMost(remote, cfg, n - 1);
      assert |FilePulls(cfg, remote[n - 1])| <= 1;
    }
  }

  /** After `n` files, `downloaded` counts the pulls that did not raise. */
  lemma {:induction false} DownloadedCount(remote: seq<string>, cfg: Setup, pull: nat -> Option<string>, n: nat)
    requires n <= |remote|
    ensures Downloaded(remote, cfg, pull, n) + Failures(Notes(remote, cfg, pull, n)) == |Pulls(remote, cfg, n)|
  {
    if n > 0 {
      var name := remote[n - 1];
      DownloadedCount(remote, cfg, pull, n - 1);
      NotesFailures(remote, cfg, pull, n);
      FileFailures(cfg, pull, n - 1, name);
      CountsStep(remote, cfg, pull, n);
    }
  }

  lemma CountsStep(remote: seq<string>, cfg: Setup, pull: nat -> Option<string>, n: nat)
    requires 0 < n <= |remote|
    ensures Downloaded(remote, cfg, pull, n) == Downloaded(remote, cfg, pull, n - 1) + FileCount(cfg, pull, n - 1, remote[n - 1])
    ensures |Pulls(remote, cfg, n)| == |Pulls(remote, cfg, n - 1)| + |FilePulls(cfg, remote[n - 1])|
  {
  }

  lemma NotesFailures(remote: seq<string>, cfg: Setup, pull: nat -> Option<string>, n: nat)
    requires 0 < n <= |remote|
    ensures Failures(Notes(remote, cfg, pull, n)) == Failures(Notes(remote, cfg, pull, n - 1)) + Failures(FileNotes(cfg, pull, n - 1, remote[n - 1]))
  {
    FailuresAppend(Notes(remote, cfg, pull, n - 1), FileNotes(cfg, pull, n - 1, remote[n - 1]));
  }

  /**
   * After `n` files the loop has pulled exactly the files it decided to
   * fetch, each from the fixed camera directory, whichever directory was
   * listed.
   */
  lemma {:induction false} PullsFetched(remote: seq<string>, cfg: Setup, n: nat)
    requires n <= |remote|
    ensures var ps := Pulls(remote, cfg, n);
      && (forall p :: p in ps <==> exists i | 0 <= i < n :: Decide(remote[i], cfg) == Fetch && p == PullOf(cfg, remote[i]))
      && (forall p | p in ps :: StartsWith(p.remote, CameraDir + "/"))
  {
    forall p ensures p in Pulls(remote, cfg, n) <==> exists i | 0 <= i < n :: Decide(remote[i], cfg) == Fetch && p == PullOf(cfg, remote[i]) {
      PullMember(remote, cfg, n, p);
    }
    forall p | p in Pulls(remote, cfg, n) ensures StartsWith(p.remote, CameraDir + "/") {
      PullMember(remote, cfg, n, p);
      var i :| 0 <= i < n && Decide(remote[i], cfg) == Fetch && p == PullOf(cfg, remote[i]);
      assert (CameraDir + "/" + remote[i])[..|CameraDir + "/"|] == CameraDir + "/";
    }
  }

  lemma {:induction false} PullMember(remote: seq<string>, cfg: Setup, n: nat, p: Pull)
    requires n <= |remote|
    ensures p in Pulls(remote, cfg, n) <==> exists i | 0 <= i < n :: Decide(remote[i], cfg) == Fetch && p == PullOf(cfg, remote[i])
  {
    if n > 0 {
      PullMember(remote, cfg, n - 1, p);
      var name := remote[n - 1];
      assert Pulls(remote, cfg, n) == Pulls(remote, cfg, n - 1) + FilePulls(cfg, name);
      if p in Pulls(remote, cfg, n - 1) {
        var i :| 0 <= i < n - 1 && Decide(remote[i], cfg) == Fetch && p == PullOf(cfg, remote[i]);
        assert 0 <= i < n;
      }
      if p in FilePulls(cfg, name) {
        assert Decide(remote[n - 1], cfg) == Fetch && p == PullOf(cfg, remote[n - 1]);
      }
    }
  }

  /** The numbers `lo, lo + 1, …, hi - 1`: the values a counter passes through. */
  function Upto(lo: nat, hi: nat): (r: seq<nat>)
    ensures |r| == if lo <= hi then hi - lo else 0
    ensures forall i | 0 <= i < |r| :: r[i] == lo + i
    decreases hi - lo
  {
    if lo >= hi then [] else [lo] + Upto(lo + 1, hi)
  }

  lemma {:induction false} UptoSnoc(lo: nat, hi: nat)
    requires lo <= hi
    ensures Upto(lo, hi) + [hi] == Upto(lo, hi + 1)
    decreases hi - lo
  {
    if lo < hi {
      UptoSnoc(lo + 1, hi);
      assert [lo] + Upto(lo + 1, hi) + [hi] == [lo] + (Upto(lo + 1, hi) + [hi]);
    }
  }

  /**
   * The body of the loop for file `i`, named `name`: the tests on its
   * extension, then either a log line or the pull; `raised` is what
   * `subprocess.run` raised, if anything.
   */
  method HandleFile(cfg: Setup, pull: nat -> Option<string>, i: nat, name: string)
    returns (notes: seq<Note>, pulled: seq<Pull>, count: nat)
    ensures notes == FileNotes(cfg, pull, i, name)
    ensures pulled == FilePulls(cfg, name)
    ensures count == FileCount(cfg, pull, i, name) <= 1
  {
    pulled, count := [], 0;
    match Decide(name, cfg) {
      case PhotosOff => notes := [Disabled(true, name)];
      case VideosOff => notes := [Disabled(false, name)];
      case HavePhoto => notes := [Present(true, name)];
      case HaveVideo => notes := [Present(false, name)];
      case Foreign => notes := [NotSupported(name)];
      case Fetch =>
        notes := [Download(name)];
        pulled := [PullOf(cfg, name)];
        var raised := pull(i);
        if raised.None? {
          count := 1;
        } else {
          notes := notes + [PullError(name, raised.value)];
        }
    }
  }

  /**
   * The outcome of the download over `remote`: the loop stopped at the first
   * cancelled check or at the end, counted and pulled what the per-file rule
   * says, logged one entry per file, the interruption when there was one and
   * the summary, and reported `0, 1, …, processed`.
   */
  predicate Fetched(remote: seq<string>, cfg: Setup, cancelled: nat -> bool, pull: nat -> Option<string>,
                    processed: nat, downloaded: nat, log: seq<Note>, progress: seq<nat>, pulls: seq<Pull>)
  {
    && processed <= |remote|
    && (forall r | 0 <= r < processed :: !cancelled(r))
    && (processed < |remote| ==> cancelled(processed))
    && downloaded == Downloaded(remote, cfg, pull, processed) <= processed
    && pulls == Pulls(remote, cfg, processed)
    && log == Notes(remote, cfg, pull, processed) + (if processed < |remote| then [Interrupted] else []) + [Summary(downloaded, processed - downloaded)]
    && progress == Upto(0, processed + 1)
  }

  /** None of the first `n` reads of the cancel flag saw it set. */
  predicate NoneSet(cancelled: nat -> bool, n: nat) {
    n == 0 || (!cancelled(n - 1) && NoneSet(cancelled, n - 1))
  }

  lemma {:induction false} NoneSetAll(cancelled: nat -> bool, n: nat)
    requires NoneSet(cancelled, n)
    ensures forall r | 0 <= r < n :: !cancelled(r)
  {
    if n > 0 {
      NoneSetAll(cancelled, n - 1);
    }
  }

  /**
   * The `for filename in remote_files` loop: before each file it reads the
   * cancel flag (`cancelled(i)` is what it reads before file `i`) and stops
   * when it is set; `processed_files` is reported as `0` first and again
   * after each file it handles.  It ends with the summary line.
   */
  method DownloadLoop(remote: seq<string>, cfg: Setup, cancelled: nat -> bool, pull: nat -> Option<string>)
    returns (processed: nat, downloaded: nat, log: seq<Note>, progress: seq<nat>, pulls: seq<Pull>)
    ensures Fetched(remote, cfg, cancelled, pull, processed, downloaded, log, progress, pulls)
  {
    processed, downloaded, log, progress, pulls := 0, 0, [], [0], [];
    while processed < |remote|
      invariant processed <= |remote|
      invariant NoneSet(cancelled, processed)
      invariant downloaded == Downloaded(remote, cfg, pull, processed)
      invariant log == Notes(remote, cfg, pull, processed)
      invariant pulls == Pulls(remote, cfg, processed)
      invariant progress == Upto(0, processed + 1)
    {
      if cancelled(processed) {
        break;
      }
      var notes, pulled, count := HandleFile(cfg, pull, processed, remote[processed]);
      log, pulls, downloaded := log + notes, pulls + pulled, downloaded + count;
      UptoSnoc(0, processed + 1);
      processed := processed + 1;
      progress := progress + [processed];
    }
    NoneSetAll(cancelled, processed);
    if processed < |remote| {
      log := log + [Interrupted];
    }
    log := log + [Summary(downloaded, processed - downloaded)];
  }

  // ---------------------------------------------------------------------
  // `run_adb_download`
  // ---------------------------------------------------------------------

  /**
   * What `run_adb_download` does once the camera directory lists files:
   * the names already in the two trees, then the download loop.  `progress` holds the `processed_files` values passed to
   * `progress_callback`, whose total is `|remote|`.
   */
  method DownloadFiles(remote: seq<string>, savePath: string, photosTree: Walk, videosTree: Walk,
                       wantPhotos: bool, wantVideos: bool, cancelled: nat -> bool, pull: nat -> Option<string>)
    returns (processed: nat, downloaded: nat, log: seq<Note>, progress: seq<nat>, pulls: seq<Pull>)
    ensures Fetched(remote, Setup(savePath, Basenames(photosTree), Basenames(videosTree), wantPhotos, wantVideos, KindOf),
                    cancelled, pull, processed, downloaded, log, progress, pulls)
  {
    var photos := ListAllFiles(photosTree);
    var videos := ListAllFiles(videosTree);
    var cfg := Setup(savePath, photos, videos, wantPhotos, wantVideos, KindOf);
    processed, downloaded, log, progress, pulls := DownloadLoop(remote, cfg, cancelled, pull);
  }

  /**
   * `run_adb_download`: the device check, then the camera directory, then,
   * when it lists files, the download.
   */
  method RunAdbDownload(devices: Call, ls: string -> Option<seq<string>>, savePath: string, photosTree: Walk, videosTree: Walk,
                        wantPhotos: bool, wantVideos: bool, cancelled: nat -> bool, pull: nat -> Option<string>)
    returns (remote: seq<string>, processed: nat, downloaded: nat, log: seq<Note>, progress: seq<nat>, pulls: seq<Pull>)
    ensures var st := Classify(devices);
      st != Ready ==> remote == [] && log == [Refused(st)] && progress == [] && pulls == []
    ensures Classify(devices) == Ready ==> remote == FirstListing(ls, PossiblePaths)
    ensures remote == [] ==> processed == 0 && downloaded == 0 && pulls == [] && progress == []
    ensures Classify(devices) == Ready && remote == [] ==> log == []
    ensures remote != [] ==>
      Fetched(remote, Setup(savePath, Basenames(photosTree), Basenames(videosTree), wantPhotos, wantVideos, KindOf),
              cancelled, pull, processed, downloaded, log, progress, pulls)
  {
    remote, processed, downloaded, log, progress, pulls := [], 0, 0, [], [], [];
    var status := Classify(devices);
    if status != Ready {
      log := [Refused(status)];
      return;
    }
    remote := SelectRemote(ls);
    if remote != [] {
      processed, downloaded, log, progress, pulls := DownloadFiles(remote, savePath, photosTree, videosTree, wantPhotos, wantVideos, cancelled, pull);
    }
  }

}
